/** The agent's authorized_keys store (internal/ssh/keys.go): one printed line per SSH session,
    filtered in place and rewritten whole on every change. */
module AuthorizedKeys {
  import opened Common
  import opened Text

  const MARK: string := "silent-devops:"
  const MAX_LINE: nat := 0xFFFF  // the longest line the scanner reads

  // ---- Reading and writing the file ----

  function RawLines(text: string): (lines: seq<string>)
    ensures forall l :: l in lines ==> '\n' !in l
  {
    var parts := Split(text, '\n');
    var last := |parts| - 1;
    if parts[last] == "" then parts[..last] else parts
  }

  /** The scanner also drops one trailing carriage return. */
  function DropReturn(line: string): string {
    if line != "" && line[|line| - 1] == '\r' then line[..|line| - 1] else line
  }

  function Dropped(lines: seq<string>): seq<string> {
    seq(|lines|, i requires 0 <= i < |lines| => DropReturn(lines[i]))
  }

  function Lines(text: string): (lines: seq<string>)
    ensures forall l :: l in lines ==> '\n' !in l
  {
    var raw := RawLines(text);
    assert forall i :: 0 <= i < |raw| ==> raw[i] in raw;
    Dropped(raw)
  }

  predicate Readable(text: string) {
    forall l :: l in RawLines(text) ==> |l| <= MAX_LINE
  }

  function Written(lines: seq<string>): string {
    if lines == [] then "" else lines[0] + "\n" + Written(lines[1..])
  }

  lemma {:induction false} SplitThenWritten(text: string)
    ensures Written(Split(text, '\n')) == text + "\n"
  {
    if text == "" {
      assert [""][1..] == [];
    } else {
      var rest := Split(text[1..], '\n');
      SplitThenWritten(text[1..]);
      assert text == [text[0]] + text[1..];
      if text[0] == '\n' {
        assert ([""] + rest)[1..] == rest;
      } else {
        var parts := [[text[0]] + rest[0]] + rest[1..];
        assert parts[1..] == rest[1..];
        assert Written(parts) == [text[0]] + Written(rest);
      }
    }
  }

  lemma {:induction false} WrittenSnoc(lines: seq<string>, line: string)
    ensures Written(lines + [line]) == Written(lines) + (line + "\n")
  {
    if lines == [] {
      assert [line][1..] == [];
    } else {
      assert (lines + [line])[1..] == lines[1..] + [line];
      WrittenSnoc(lines[1..], line);
    }
  }

  /** The lines of a text, each with a newline, make up the text, or the text and a last newline. */
  lemma {:induction false} RawLinesExactly(text: string)
    ensures Written(RawLines(text)) == if text == "" || text[|text| - 1] == '\n' then text else text + "\n"
  {
    var parts := Split(text, '\n');
    var last := |parts| - 1;
    SplitThenWritten(text);
    assert parts == parts[..last] + [parts[last]];
    WrittenSnoc(parts[..last], parts[last]);
    assert Written(parts[..last]) + (parts[last] + "\n") == text + "\n";
    var head := Written(parts[..last]);
    assert (head + parts[last]) + "\n" == text + "\n";
    assert head + parts[last] == text by {
      assert (head + parts[last]) == (text + "\n")[..|text|] == text;
    }
    if parts[last] == "" {
      assert head == text;
      EndsInNewline(parts[..last]);
    } else {
      assert text[|text| - 1] == parts[last][|parts[last]| - 1];
      assert parts[last][|parts[last]| - 1] in parts[last] && parts[last] in parts;
    }
  }

  lemma {:induction false} EndsInNewline(lines: seq<string>)
    ensures Written(lines) == "" || Written(lines)[|Written(lines)| - 1] == '\n'
  {
    if lines == [] {
    } else {
      EndsInNewline(lines[1..]);
      assert Written(lines) == (lines[0] + "\n") + Written(lines[1..]);
    }
  }

  /** Text that survives being written and read again. */
  predicate Clean(line: string) {
    '\n' !in line && DropReturn(line) == line
  }

  lemma {:induction false} CleanExactly(line: string)
    ensures Clean(line) <==> '\n' !in line && (|line| > 0 ==> line[|line| - 1] != '\r')
  {
    if |line| > 0 && line[|line| - 1] == '\r' {
      assert |DropReturn(line)| == |line| - 1;
    }
  }

  lemma {:induction false} SplitOfWritten(lines: seq<string>)
    requires forall l :: l in lines ==> '\n' !in l
    ensures Split(Written(lines), '\n') == lines + [""]
  {
    if lines == [] {
    } else {
      SplitOfWritten(lines[1..]);
      SplitCons(lines[0], Written(lines[1..]), '\n');
      assert lines[0] + ['\n'] + Written(lines[1..]) == Written(lines);
    }
  }

  lemma LinesOfWritten(lines: seq<string>)
    requires forall l :: l in lines ==> '\n' !in l
    ensures RawLines(Written(lines)) == lines
    ensures |Lines(Written(lines))| == |lines|
    ensures forall i :: 0 <= i < |lines| ==> Lines(Written(lines))[i] == DropReturn(lines[i])
  {
    SplitOfWritten(lines);
  }

  /** Reading back what update wrote gives the same lines exactly when no line holds a newline or
      ends in a carriage return, and succeeds exactly when moreover none is too long. */
  lemma {:induction false} WrittenReadsBackExactly(lines: seq<string>)
    ensures Lines(Written(lines)) == lines <==> forall l :: l in lines ==> Clean(l)
    ensures (forall l :: l in lines ==> Clean(l)) ==>
      (Readable(Written(lines)) <==> forall l :: l in lines ==> |l| <= 65_535)
  {
    var back := Lines(Written(lines));
    if back == lines {
      LinesOfWritten(lines);
      forall l | l in lines ensures Clean(l) {
        var i :| 0 <= i < |lines| && lines[i] == l;
        assert back[i] == DropReturn(l);
      }
    }
    if forall l :: l in lines ==> Clean(l) {
      LinesOfWritten(lines);
      forall i | 0 <= i < |lines| ensures back[i] == lines[i] {
        assert Clean(lines[i]);
      }
    }
  }

  // ---- Lines ----

  function Needle(id: string): string {
    MARK + id + ":"
  }

  function MarkerFor(id: string, expiry: int): string {
    Needle(id) + FormatInt(expiry)
  }

  /** The printed line, "restrict,pty kind key silent-devops:id:expiry". */
  function LineFor(kind: string, key: string, id: string, expiry: int): string {
    "restrict,pty" + " " + (kind + " " + (key + " " + MarkerFor(id, expiry)))
  }

  function FirstMarker(fields: seq<string>): string {
    if fields == [] then "" else if MARK <= fields[0] then fields[0] else FirstMarker(fields[1..])
  }

  method Marker(line: string) returns (marker: string)
    ensures marker == FirstMarker(Fields(line))
  {
    var fields := Fields(line);
    for i := 0 to |fields|
      invariant FirstMarker(fields) == FirstMarker(fields[i..])
    {
      if MARK <= fields[i] {
        return fields[i];
      }
    }
    return "";
  }

  /** What Reconcile keeps. */
  predicate Keeps(line: string, now: int) {
    var marker := FirstMarker(Fields(line));
    marker == "" ||
    var parts := Split(marker, ':');
    |parts| == 3 && ParseInt64(parts[2]).Some? && ParseInt64(parts[2]).value > now
  }

  function WithoutSession(id: string): string -> bool {
    line => !Contains(line, Needle(id))
  }

  function LiveAt(now: int): string -> bool {
    line => Keeps(line, now)
  }

  /** Compacts the lines of other sessions to the front of the array. */
  method RemoveSession(lines: array<string>, id: string) returns (n: nat)
    modifies lines
    ensures n <= lines.Length && lines[..n] == Filter(WithoutSession(id), old(lines[..]))
  {
    n := 0;
    ghost var before := lines[..];
    for i := 0 to lines.Length
      invariant n <= i
      invariant lines[..n] == Filter(WithoutSession(id), before[..i])
      invariant forall j :: i <= j < lines.Length ==> lines[j] == before[j]
    {
      FilterSnoc(WithoutSession(id), before, i);
      var line := lines[i];
      assert !Contains(line, Needle(id)) == WithoutSession(id)(line);
      if !Contains(line, Needle(id)) {
        lines[n] := line;
        n := n + 1;
      }
    }
    assert before[..lines.Length] == before;
  }

  /** Compacts the lines that are still live, or not ours, to the front of the array. */
  method ReconcileLines(lines: array<string>, now: int) returns (n: nat)
    modifies lines
    ensures n <= lines.Length && lines[..n] == Filter(LiveAt(now), old(lines[..]))
  {
    n := 0;
    ghost var before := lines[..];
    for i := 0 to lines.Length
      invariant n <= i
      invariant lines[..n] == Filter(LiveAt(now), before[..i])
      invariant forall j :: i <= j < lines.Length ==> lines[j] == before[j]
    {
      FilterSnoc(LiveAt(now), before, i);
      var line := lines[i];
      var marker := Marker(line);
      var keep := true;
      if marker != "" {
        var parts := Split(marker, ':');
        keep := false;
        if |parts| == 3 {
          var expiry := ParseInt64(parts[2]);
          keep := expiry.Some? && expiry.value > now;
        }
      }
      assert keep == Keeps(line, now) == LiveAt(now)(line);
      if keep {
        lines[n] := line;
        n := n + 1;
      }
    }
    assert before[..lines.Length] == before;
  }

  // ---- Markers ----

  /** Field i is the first that starts like a marker. */
  predicate FirstMarked(fields: seq<string>, i: nat) {
    i < |fields| && MARK <= fields[i] && forall j :: 0 <= j < i ==> !(MARK <= fields[j])
  }

  lemma {:induction false} FirstMarkerExactly(fields: seq<string>)
    ensures FirstMarker(fields) == "" <==> forall f :: f in fields ==> !(MARK <= f)
    ensures FirstMarker(fields) != "" <==> exists i: nat :: FirstMarked(fields, i)
    ensures forall i: nat :: FirstMarked(fields, i) ==> fields[i] == FirstMarker(fields)
  {
    if fields == [] {
    } else if MARK <= fields[0] {
      assert FirstMarked(fields, 0) && fields[0] in fields;
    } else {
      var rest := fields[1..];
      FirstMarkerExactly(rest);
      assert forall f :: f in fields <==> f == fields[0] || f in rest;
      forall i: nat | FirstMarked(fields, i) ensures FirstMarked(rest, i - 1) {
        assert forall j :: 0 <= j < i - 1 ==> rest[j] == fields[j + 1];
      }
      if i: nat :| FirstMarked(rest, i) {
        assert forall j :: 0 < j < i + 1 ==> fields[j] == rest[j - 1];
        assert FirstMarked(fields, i + 1);
      }
    }
  }

  predicate UnexpiredMarker(marker: string, now: int) {
    var parts := Split(marker, ':');
    && |parts| == 3
    && match ParseInt64(parts[2]) case None => false case Some(expiry) => now < expiry
  }

  /** Reconcile keeps a line exactly if none of its fields starts like a marker, or the first that does has
      three parts between colons, the last a 64-bit number later than now. */
  lemma {:induction false} KeepsExactly(line: string, now: int)
    ensures var fields := Fields(line);
            Keeps(line, now) <==>
            || (forall f :: f in fields ==> !(MARK <= f))
            || exists i: nat :: FirstMarked(fields, i) && UnexpiredMarker(fields[i], now)
  {
    FirstMarkerExactly(Fields(line));
  }

  // ---- The store ----

  /** Expiries and `now` are Unix seconds; no expiry is Go's zero time. */
  datatype Op =
    | Install(id: string, publicKey: string, expires: Option<int>)
    | Remove(id: string)
    | Reconcile(now: int)

  predicate Accepted(op: Op) {
    match op
    case Install(id, publicKey, expires) =>
      var fields := Fields(publicKey);
      id != "" && expires.Some? && |fields| >= 2 && "ssh-" <= fields[0]
    case Remove(_) => true
    case Reconcile(_) => true
  }

  function Changed(lines: seq<string>, op: Op): seq<string>
    requires Accepted(op)
  {
    match op
    case Install(id, publicKey, expires) =>
      var fields := Fields(publicKey);
      Filter(WithoutSession(id), lines) + [LineFor(fields[0], fields[1], id, expires.value)]
    case Remove(id) => Filter(WithoutSession(id), lines)
    case Reconcile(now) => Filter(LiveAt(now), lines)
  }

  function Content(file: Option<string>): string {
    if file.None? then "" else file.value
  }

  function Apply(file: Option<string>, op: Op): Option<string> {
    if Accepted(op) && Readable(Content(file)) then Some(Written(Changed(Lines(Content(file)), op))) else file
  }

  class KeyStore {
    const path: string
    var file: Option<string>  // None while the file does not exist

    constructor (path: string, file: Option<string>)
      ensures this.path == path && this.file == file
    {
      this.path, this.file := path, file;
    }

    /** The reading half of update. */
    method Load() returns (lines: Option<array<string>>)
      ensures lines.Some? <==> path != "" && Readable(Content(file))
      ensures lines.Some? ==> fresh(lines.value) && lines.value[..] == Lines(Content(file))
    {
      if path == "" || !Readable(Content(file)) {
        return None;
      }
      var read := Lines(Content(file));
      var buffer := new string[|read|](i requires 0 <= i < |read| => read[i]);
      assert buffer[..] == read;
      return Some(buffer);
    }

    method Install(id: string, publicKey: string, expires: Option<int>) returns (ok: bool)
      modifies this
      ensures ok <==> path != "" && Accepted(Op.Install(id, publicKey, expires)) && Readable(Content(old(file)))
      ensures ok ==> |id| > 0 && expires != None && |Fields(publicKey)| >= 2 && "ssh-" <= Fields(publicKey)[0]
      ensures !ok ==>
        || path == "" || !Readable(Content(old(file))) || id == "" || expires == None
        || |Fields(publicKey)| < 2 || !("ssh-" <= Fields(publicKey)[0])
      ensures file == if path != "" then Apply(old(file), Op.Install(id, publicKey, expires)) else old(file)
    {
      if id == "" || expires.None? {
        return false;
      }
      var fields := Fields(publicKey);
      if |fields| < 2 || !("ssh-" <= fields[0]) {
        return false;
      }
      var line := LineFor(fields[0], fields[1], id, expires.value);
      var lines := Load();
      if lines.None? {
        return false;
      }
      var n := RemoveSession(lines.value, id);
      file := Some(Written(lines.value[..n] + [line]));
      return true;
    }

    method Remove(id: string) returns (ok: bool)
      modifies this
      ensures ok <==> path != "" && Readable(Content(old(file)))
      ensures file == if path != "" then Apply(old(file), Op.Remove(id)) else old(file)
    {
      var lines := Load();
      if lines.None? {
        return false;
      }
      var n := RemoveSession(lines.value, id);
      file := Some(Written(lines.value[..n]));
      return true;
    }

    method Reconcile(now: int) returns (ok: bool)
      modifies this
      ensures ok <==> path != "" && Readable(Content(old(file)))
      ensures file == if path != "" then Apply(old(file), Op.Reconcile(now)) else old(file)
    {
      var lines := Load();
      if lines.None? {
        return false;
      }
      var n := ReconcileLines(lines.value, now);
      file := Some(Written(lines.value[..n]));
      return true;
    }
  }

  // ---- Printed lines and how they are parsed back ----

  datatype Record = Record(kind: string, key: string, id: string, expiry: int)

  predicate Plain(s: string) {
    NoSpace(s) && ':' !in s
  }

  predicate Word(s: string) {
    s != "" && Plain(s)
  }

  predicate Int64(n: int) {
    -0x8000_0000_0000_0000 <= n < 0x8000_0000_0000_0000
  }

  function LineOf(r: Record): string {
    LineFor(r.kind, r.key, r.id, r.expiry)
  }

  /** Key fields of the usual alphabet, a session id without ':' or white space, a readable line. */
  predicate Proper(r: Record) {
    && Word(r.kind) && Word(r.key) && Word(r.id) && "ssh-" <= r.kind
    && Int64(r.expiry) && |LineOf(r)| <= MAX_LINE
  }

  lemma FieldsOfLine(kind: string, key: string, id: string, expiry: int)
    requires kind != "" && key != "" && NoSpace(kind) && NoSpace(key) && NoSpace(id)
    ensures Fields(LineFor(kind, key, id, expiry)) == ["restrict,pty", kind, key, MarkerFor(id, expiry)]
  {
    MarkerIsWord(id, expiry);
    FieldsOfFour("restrict,pty", kind, key, MarkerFor(id, expiry));
  }

  lemma MarkerIsWord(id: string, expiry: int)
    requires NoSpace(id)
    ensures NoSpace(MarkerFor(id, expiry)) && MarkerFor(id, expiry) != ""
  {
    assert NoSpace(Needle(id));
  }

  lemma FieldsOfFour(a: string, b: string, c: string, d: string)
    requires a != "" && b != "" && c != "" && d != ""
    requires NoSpace(a) && NoSpace(b) && NoSpace(c) && NoSpace(d)
    ensures Fields(a + " " + (b + " " + (c + " " + d))) == [a, b, c, d]
  {
    FieldsOfWord(d);
    FieldsCons(c, d);
    FieldsCons(b, c + " " + d);
    FieldsCons(a, b + " " + (c + " " + d));
  }

  lemma NotMarked(s: string)
    requires ':' !in s || "ssh-" <= s
    ensures !(MARK <= s)
  {
    assert MARK[13] == ':' && MARK[1] == 'i' && "ssh-"[1] == 's';
    if |s| >= 14 {
      assert s[13] in s;
    }
  }

  /** The marker read back is the marker printed, exactly unless the key blob itself looks like one. */
  lemma {:induction false} MarkerReadsBackExactly(kind: string, key: string, id: string, expiry: int)
    requires kind != "" && key != "" && NoSpace(kind) && NoSpace(key) && NoSpace(id) && "ssh-" <= kind
    ensures FirstMarker(Fields(LineFor(kind, key, id, expiry))) == MarkerFor(id, expiry)
       <==> !(MARK <= key) || key == MarkerFor(id, expiry)
  {
    FieldsOfLine(kind, key, id, expiry);
    var marker := MarkerFor(id, expiry);
    var fields := ["restrict,pty", kind, key, marker];
    NotMarked("restrict,pty");
    NotMarked(kind);
    assert MARK <= marker;
    assert fields[1..] == [kind, key, marker] && [kind, key, marker][1..] == [key, marker]
        && [key, marker][1..] == [marker];
    assert FirstMarker(fields) == FirstMarker([kind, key, marker]) == FirstMarker([key, marker]);
    assert FirstMarker([marker]) == marker;
  }

  /** Splitting the marker recovers id and expiry exactly when the id has no colon. */
  lemma {:induction false} MarkerSplitsExactly(id: string, expiry: int)
    ensures Split(MarkerFor(id, expiry), ':') == ["silent-devops", id, FormatInt(expiry)] <==> ':' !in id
    ensures |Split(MarkerFor(id, expiry), ':')| == 3 <==> ':' !in id
  {
    var tail := id + ":" + FormatInt(expiry);
    assert MarkerFor(id, expiry) == "silent-devops" + [':'] + tail;
    SplitCons("silent-devops", tail, ':');
    SplitOne(FormatInt(expiry), ':');
    if ':' !in id {
      assert tail == id + [':'] + FormatInt(expiry);
      SplitCons(id, FormatInt(expiry), ':');
    } else {
      SplitLonger(id, FormatInt(expiry));
    }
  }

  lemma {:induction false} SplitLonger(id: string, rest: string)
    requires ':' in id
    ensures |Split(id + ":" + rest, ':')| > 2
  {
    var s := id + ":" + rest;
    assert s[1..] == id[1..] + ":" + rest;
    if ':' in id[1..] {
      SplitLonger(id[1..], rest);
    } else {
      assert s[1..] == id[1..] + [':'] + rest;
      SplitCons(id[1..], rest, ':');
    }
  }

  /** Reconcile keeps a printed line exactly when its expiry is later than now. */
  lemma {:induction false} KeepsExactlyUnexpired(r: Record, now: int)
    requires Proper(r)
    ensures Keeps(LineOf(r), now) <==> r.expiry > now
  {
    NotMarked(r.key);
    MarkerReadsBackExactly(r.kind, r.key, r.id, r.expiry);
    MarkerSplitsExactly(r.id, r.expiry);
    ParseOfFormat(r.expiry);
  }

  function Head(r: Record): string {
    "restrict,pty" + " " + (r.kind + " " + (r.key + " "))
  }

  /** A printed line has exactly two colons, both in its marker. */
  lemma ColonsOfLine(r: Record)
    requires Proper(r)
    ensures LineOf(r) == Head(r) + Needle(r.id) + FormatInt(r.expiry)
    ensures var p := |Head(r)|;
            forall j :: 0 <= j < |LineOf(r)| && LineOf(r)[j] == ':' ==> j == p + 13 || j == p + 14 + |r.id|
  {
    var head, marker := Head(r), MarkerFor(r.id, r.expiry);
    var p := |head|;
    assert LineOf(r) == head + marker;
    assert ':' !in head;
    forall j | 0 <= j < |LineOf(r)| && j != p + 13 && j != p + 14 + |r.id| ensures LineOf(r)[j] != ':' {
      if j < p {
        assert LineOf(r)[j] == head[j] && head[j] in head;
      } else {
        ColonsOfMarker(r.id, r.expiry, j - p);
      }
    }
  }

  lemma ColonsOfMarker(id: string, expiry: int, j: nat)
    requires ':' !in id && j < |MarkerFor(id, expiry)| && j != 13 && j != 14 + |id|
    ensures MarkerFor(id, expiry)[j] != ':'
  {
    var marker := MarkerFor(id, expiry);
    if j < 13 {
      assert marker[j] == MARK[j];
    } else if j < 14 + |id| {
      assert marker[j] == id[j - 14] && id[j - 14] in id;
    } else {
      var k := j - 15 - |id|;
      assert marker[j] == FormatInt(expiry)[k] && FormatInt(expiry)[k] in FormatInt(expiry);
    }
  }

  /** A printed line mentions a session's needle exactly when it is that session's line. */
  lemma {:induction false} NeedleFindsExactly(r: Record, id: string)
    requires Proper(r) && Plain(id)
    ensures Contains(LineOf(r), Needle(id)) <==> r.id == id
    ensures Contains(LineOf(r), MARK)
  {
    OwnNeedle(r);
    ContainsPrefixOf(LineOf(r), Needle(r.id), MARK);
    if Contains(LineOf(r), Needle(id)) {
      var i :| 0 <= i <= |LineOf(r)| && MatchesAt(LineOf(r), Needle(id), i);
      NeedleAligns(r, id, i);
    }
  }

  lemma OwnNeedle(r: Record)
    requires Proper(r)
    ensures Contains(LineOf(r), Needle(r.id))
  {
    ColonsOfLine(r);
    var line, p := LineOf(r), |Head(r)|;
    assert line[p..p + |Needle(r.id)|] == Needle(r.id);
    assert MatchesAt(line, Needle(r.id), p);
  }

  lemma NeedleAligns(r: Record, id: string, i: nat)
    requires Proper(r) && MatchesAt(LineOf(r), Needle(id), i)
    ensures id == r.id
  {
    ColonsOfLine(r);
    var line, p, needle := LineOf(r), |Head(r)|, Needle(id);
    assert needle[13] == ':' && needle[14 + |id|] == ':';
    assert line[i + 13] == line[i..i + |needle|][13] && line[i + 14 + |id|] == line[i..i + |needle|][14 + |id|];
    assert i == p && |id| == |r.id|;
    assert line[p..p + |needle|] == Needle(r.id);
    assert id == needle[14..14 + |id|] && r.id == Needle(r.id)[14..14 + |r.id|];
  }

  // ---- The file refines a list of records ----

  predicate Managed(line: string) {
    Contains(line, MARK)
  }

  predicate Foreign(line: string) {
    !Contains(line, MARK)
  }

  function Print(records: seq<Record>): seq<string> {
    if records == [] then [] else [LineOf(records[0])] + Print(records[1..])
  }

  function OtherThan(id: string): Record -> bool {
    (r: Record) => r.id != id
  }

  function ExpiresAfter(now: int): Record -> bool {
    (r: Record) => r.expiry > now
  }

  function RecordFor(op: Op): Record
    requires op.Install? && Accepted(op)
  {
    var fields := Fields(op.publicKey);
    Record(fields[0], fields[1], op.id, op.expires.value)
  }

  /** What each operation means, without any text. */
  function ApplyRecords(records: seq<Record>, op: Op): seq<Record> {
    if !Accepted(op) then records
    else match op
      case Install(id, _, _) => Filter(OtherThan(id), records) + [RecordFor(op)]
      case Remove(id) => Filter(OtherThan(id), records)
      case Reconcile(now) => Filter(ExpiresAfter(now), records)
  }

  predicate Sane(op: Op) {
    match op
    case Install(_, _, _) => Accepted(op) ==> Proper(RecordFor(op))
    case Remove(id) => Plain(id)
    case Reconcile(_) => true
  }

  predicate DistinctIds(records: seq<Record>) {
    forall i, j :: 0 <= i < j < |records| ==> records[i].id != records[j].id
  }

  /** The file holds `foreign` lines in order, and one printed line per record, in order. */
  ghost predicate Represents(file: Option<string>, foreign: seq<string>, records: seq<Record>) {
    var lines := Lines(Content(file));
    && Readable(Content(file))
    && (forall l :: l in lines ==> Clean(l) && |l| <= MAX_LINE)
    && Filter(Managed, lines) == Print(records)
    && Filter(Foreign, lines) == foreign
    && (forall r :: r in records ==> Proper(r))
    && DistinctIds(records)
  }

  function Run(file: Option<string>, ops: seq<Op>): Option<string> {
    if ops == [] then file else Apply(Run(file, ops[..|ops| - 1]), ops[|ops| - 1])
  }

  function RunRecords(records: seq<Record>, ops: seq<Op>): seq<Record> {
    if ops == [] then records else ApplyRecords(RunRecords(records, ops[..|ops| - 1]), ops[|ops| - 1])
  }

  lemma {:induction false} FilterPrinted(records: seq<Record>, keepLine: string -> bool, keep: Record -> bool)
    requires forall r :: r in records ==> (keepLine(LineOf(r)) <==> keep(r))
    ensures Filter(keepLine, Print(records)) == Print(Filter(keep, records))
  {
    if records == [] {
    } else {
      var first, rest := records[0], records[1..];
      assert forall r :: r in rest ==> r in records;
      FilterPrinted(rest, keepLine, keep);
      assert first in records && records == [first] + rest;
      FilterConcat(keepLine, [LineOf(first)], Print(rest));
      FilterConcat(keep, [first], rest);
      PrintConcat(Filter(keep, [first]), Filter(keep, rest));
      assert Filter(keepLine, [LineOf(first)]) == Print(Filter(keep, [first])) by {
        FilterOne(keep, first);
        FilterOne(keepLine, LineOf(first));
      }
    }
  }

  lemma PrintCons(r: Record, rest: seq<Record>)
    ensures Print([r] + rest) == [LineOf(r)] + Print(rest)
  {
    assert ([r] + rest)[1..] == rest;
  }

  lemma HeadAndRest(a: seq<Record>, b: seq<Record>)
    requires a != []
    ensures a + b == [a[0]] + (a[1..] + b) && a == [a[0]] + a[1..]
  {}

  lemma {:induction false} PrintConcat(a: seq<Record>, b: seq<Record>)
    ensures Print(a + b) == Print(a) + Print(b)
  {
    if a == [] {
      assert a + b == b;
    } else {
      var rest := a[1..];
      PrintConcat(rest, b);
      HeadAndRest(a, b);
      PrintCons(a[0], rest + b);
      PrintCons(a[0], rest);
      ConcatAssoc([LineOf(a[0])], Print(rest), Print(b));
    }
  }

  lemma {:induction false} FilterDistinct(keep: Record -> bool, records: seq<Record>)
    requires DistinctIds(records)
    ensures DistinctIds(Filter(keep, records))
  {
    if records == [] {
    } else {
      FilterDistinct(keep, records[1..]);
      FilterMembers(keep, records[1..]);
      var rest := Filter(keep, records[1..]);
      assert forall i :: 0 <= i < |rest| ==> rest[i] in records[1..];
    }
  }

  /** Foreign lines are kept by every line filter the store uses. */
  lemma ForeignKept(line: string, id: string, now: int)
    requires Foreign(line)
    ensures WithoutSession(id)(line) && LiveAt(now)(line)
  {
    if Contains(line, Needle(id)) {
      ContainsPrefixOf(line, Needle(id), MARK);
    }
    var fields := Fields(line);
    forall f | f in fields ensures !(MARK <= f) {
      FieldsAreSubstrings(line, f);
      if MARK <= f {
        ContainsPrefixOf(line, f, MARK);
      }
    }
    NoMarker(fields);
  }

  lemma {:induction false} NoMarker(fields: seq<string>)
    requires forall f :: f in fields ==> !(MARK <= f)
    ensures FirstMarker(fields) == ""
  {
    if fields == [] {
    } else {
      assert fields[0] in fields && forall f :: f in fields[1..] ==> f in fields;
      NoMarker(fields[1..]);
    }
  }

  lemma ForeignFilter(lines: seq<string>, keep: string -> bool)
    requires forall l :: Foreign(l) ==> keep(l)
    ensures Filter(Foreign, Filter(keep, lines)) == Filter(Foreign, lines)
  {
    FilterFilter(Foreign, keep, lines);
    FilterMembers(Foreign, lines);
    FilterAll(keep, Filter(Foreign, lines));
  }

  /** The filters of every operation keep each foreign line, in order. */
  lemma ForeignLinesFiltered(lines: seq<string>, op: Op)
    requires Accepted(op)
    ensures Filter(Foreign, Changed(lines, op)) == Filter(Foreign, lines)
  {
    match op
    case Remove(id) =>
      forall l | Foreign(l) ensures WithoutSession(id)(l) { ForeignKept(l, id, 0); }
      ForeignFilter(lines, WithoutSession(id));
    case Reconcile(now) =>
      forall l | Foreign(l) ensures LiveAt(now)(l) { ForeignKept(l, "", now); }
      ForeignFilter(lines, LiveAt(now));
    case Install(id, publicKey, expires) =>
      forall l | Foreign(l) ensures WithoutSession(id)(l) { ForeignKept(l, id, 0); }
      ForeignFilter(lines, WithoutSession(id));
      var fields := Fields(publicKey);
      var line := LineFor(fields[0], fields[1], id, expires.value);
      var p := |"restrict,pty" + " " + (fields[0] + " " + (fields[1] + " "))|;
      assert line[p..p + |MARK|] == MARK;
      assert MatchesAt(line, MARK, p);
      FilterConcat(Foreign, Filter(WithoutSession(id), lines), [line]);
      FilterNone(Foreign, [line]);
  }

  // ---- Foreign lines after the file is read again ----

  lemma {:induction false} SplitAfterWritten(lines: seq<string>, text: string)
    requires forall l :: l in lines ==> '\n' !in l
    ensures Split(Written(lines) + text, '\n') == lines + Split(text, '\n')
  {
    if lines == [] {
      assert Written(lines) + text == text;
    } else {
      var head, rest, w := lines[0], lines[1..], Written(lines[1..]);
      SplitAfterWritten(rest, text);
      SplitCons(head, w + text, '\n');
      assert Written(lines) == head + ['\n'] + w;
      ConcatAssoc(head + ['\n'], w, text);
      assert lines == [head] + rest;
      ConcatAssoc([head], rest, Split(text, '\n'));
    }
  }

  lemma RawAfterWritten(lines: seq<string>, text: string)
    requires forall l :: l in lines ==> '\n' !in l
    ensures RawLines(Written(lines) + text) == lines + RawLines(text)
  {
    SplitAfterWritten(lines, text);
    LastAfter(lines, Split(text, '\n'));
    WithoutLastIs(Written(lines) + text);
    WithoutLastIs(text);
  }

  function WithoutLast(parts: seq<string>): seq<string>
    requires parts != []
  {
    if parts[|parts| - 1] == "" then parts[..|parts| - 1] else parts
  }

  lemma WithoutLastIs(text: string)
    ensures RawLines(text) == WithoutLast(Split(text, '\n'))
  {}

  lemma LastAfter(lines: seq<string>, parts: seq<string>)
    requires parts != []
    ensures WithoutLast(lines + parts) == lines + WithoutLast(parts)
  {
    var all := lines + parts;
    assert all[|all| - 1] == parts[|parts| - 1] && all[..|all| - 1] == lines + parts[..|parts| - 1];
  }

  lemma {:induction false} WrittenConcat(a: seq<string>, b: seq<string>)
    ensures Written(a + b) == Written(a) + Written(b)
  {
    if a == [] {
      assert a + b == b;
    } else {
      WrittenConcat(a[1..], b);
      assert (a + b)[0] == a[0] && (a + b)[1..] == a[1..] + b;
      assert a[0] + "\n" + (Written(a[1..]) + Written(b)) == a[0] + "\n" + Written(a[1..]) + Written(b);
    }
  }

  lemma DroppedConcat(a: seq<string>, b: seq<string>)
    ensures Dropped(a + b) == Dropped(a) + Dropped(b)
  {}

  /** Dropping a final carriage return does not hide or make a marker text. */
  lemma DropKeepsForeign(line: string)
    ensures Foreign(DropReturn(line)) <==> Foreign(line)
  {
    var d := DropReturn(line);
    if i :| 0 <= i <= |line| && MatchesAt(line, MARK, i) {
      assert MARK[13] == ':' && line[i + 13] == MARK[13];
      assert d[i..i + |MARK|] == line[i..i + |MARK|];
      assert MatchesAt(d, MARK, i);
    }
    if i :| 0 <= i <= |d| && MatchesAt(d, MARK, i) {
      assert d[i..i + |MARK|] == line[i..i + |MARK|];
      assert MatchesAt(line, MARK, i);
    }
  }

  lemma {:induction false} ForeignDropped(lines: seq<string>)
    ensures Filter(Foreign, Dropped(lines)) == Dropped(Filter(Foreign, lines))
  {
    if lines == [] {
    } else {
      var first, rest := lines[0], lines[1..];
      ForeignDropped(rest);
      DropKeepsForeign(first);
      DroppedConcat([first], rest);
      assert lines == [first] + rest && Dropped([first]) == [DropReturn(first)];
      FilterConcat(Foreign, Dropped([first]), Dropped(rest));
      FilterConcat(Foreign, [first], rest);
      DroppedConcat(Filter(Foreign, [first]), Filter(Foreign, rest));
      FilterOne(Foreign, DropReturn(first));
      FilterOne(Foreign, first);
    }
  }

  /** The lines a printed line is read back as: one, unless the session id holds a newline. */
  function Pieces(op: Op): seq<string>
    requires Accepted(op)
  {
    if op.Install? then RawLines(Written([LineOf(RecordFor(op))])) else []
  }

  lemma ChangedReadBack(lines: seq<string>, op: Op)
    requires Accepted(op) && forall l :: l in lines ==> '\n' !in l
    ensures var kept := if op.Install? then Filter(WithoutSession(op.id), lines) else Changed(lines, op);
            Lines(Written(Changed(lines, op))) == Dropped(kept) + Dropped(Pieces(op))
  {
    var kept := if op.Install? then Filter(WithoutSession(op.id), lines) else Changed(lines, op);
    match op {
      case Install(id, _, _) => FilterMembers(WithoutSession(id), lines);
      case Remove(id) => FilterMembers(WithoutSession(id), lines);
      case Reconcile(now) => FilterMembers(LiveAt(now), lines);
    }
    if op.Install? {
      var line := LineOf(RecordFor(op));
      WrittenConcat(kept, [line]);
      RawAfterWritten(kept, Written([line]));
    } else {
      RawAfterWritten(kept, "");
      assert Written(kept) + "" == Written(kept) && kept + RawLines("") == kept;
    }
    DroppedConcat(kept, Pieces(op));
  }

  /** What becomes of the foreign lines when an operation rewrites the file: a final carriage return is
      dropped from each, and a session id with a newline may add some. */
  lemma ForeignLinesRead(lines: seq<string>, op: Op)
    requires Accepted(op) && forall l :: l in lines ==> '\n' !in l
    ensures Filter(Foreign, Lines(Written(Changed(lines, op))))
         == Dropped(Filter(Foreign, lines)) + Dropped(Filter(Foreign, Pieces(op)))
  {
    var kept := if op.Install? then Filter(WithoutSession(op.id), lines) else Changed(lines, op);
    ChangedReadBack(lines, op);
    FilterConcat(Foreign, Dropped(kept), Dropped(Pieces(op)));
    ForeignDropped(kept);
    ForeignDropped(Pieces(op));
    if op.Install? {
      ForeignLinesFiltered(lines, Op.Remove(op.id));
    } else {
      ForeignLinesFiltered(lines, op);
    }
  }

  /** Over the file as it is written and read again, whatever it holds: an operation leaves the foreign
      lines and their order as they were exactly when it does not rewrite the file, or when no foreign
      line ends in a carriage return and every line its printed line is read back as holds the marker text. */
  lemma {:induction false} ForeignLinesKept(file: Option<string>, op: Op)
    ensures var before, after := Filter(Foreign, Lines(Content(file))),
        Filter(Foreign, Lines(Content(Apply(file, op))));
            after == before <==>
              !Accepted(op) || !Readable(Content(file))
              || ((forall l :: l in before ==> Clean(l)) && (forall l :: l in Pieces(op) ==> Managed(l)))
  {
    if Accepted(op) && Readable(Content(file)) {
      var lines := Lines(Content(file));
      var before, stray := Filter(Foreign, lines), Filter(Foreign, Pieces(op));
      ForeignLinesRead(lines, op);
      FilterMembers(Foreign, lines);
      FilterMembers(Foreign, Pieces(op));
      DroppedExactly(before, stray);
      assert stray == [] <==> forall l :: l in Pieces(op) ==> Managed(l) by {
        if stray != [] {
          FirstMember(stray);
        }
      }
    }
  }

  lemma TwoReturns()
    ensures Lines("a\r\r\n") == ["a\r"] && Readable("a\r\r\n")
  {
    var raw := ["a\r\r"];
    LinesOfWritten(raw);
    assert Written(raw) == "a\r\r\n";
    assert DropReturn("a\r\r") == "a\r" && Lines(Written(raw))[0] == "a\r";
  }

  /** It does fail: removing any session rewrites the foreign line "a\r" as "a". */
  lemma {:induction false} ReturnIsLost(id: string)
    ensures var file := Some("a\r\r\n");
            && Filter(Foreign, Lines(Content(file))) == ["a\r"]
            && Filter(Foreign, Lines(Content(Apply(file, Op.Remove(id))))) != ["a\r"]
  {
    TwoReturns();
    FilterOne(Foreign, "a\r");
    assert "a\r" in ["a\r"] && !Clean("a\r");
    ForeignLinesKept(Some("a\r\r\n"), Op.Remove(id));
  }

  lemma FirstMember(lines: seq<string>)
    requires lines != []
    ensures lines[0] in lines
  {}

  lemma DroppedExactly(lines: seq<string>, stray: seq<string>)
    requires forall l :: l in lines ==> '\n' !in l
    ensures Dropped(lines) + Dropped(stray) == lines <==> (forall l :: l in lines ==> Clean(l)) && stray == []
  {
    var all := Dropped(lines) + Dropped(stray);
    if all == lines {
      assert |stray| == 0;
      forall l | l in lines ensures Clean(l) {
        var i :| 0 <= i < |lines| && lines[i] == l;
        assert all[i] == DropReturn(lines[i]);
      }
    }
    if (forall l :: l in lines ==> Clean(l)) && stray == [] {
      forall i | 0 <= i < |lines| ensures all[i] == lines[i] {
        assert lines[i] in lines;
      }
    }
  }

  /** A session id without a newline is printed as one line, which holds the marker text. */
  lemma {:induction false} OnePiece(op: Op)
    requires op.Install? && Accepted(op) && '\n' !in op.id
    ensures Pieces(op) == [LineOf(RecordFor(op))] && Managed(LineOf(RecordFor(op)))
  {
    var r := RecordFor(op);
    var fields := Fields(op.publicKey);
    assert NoSpace(fields[0]) && NoSpace(fields[1]);
    var line := LineOf(r);
    PrintedHasMark(r);
    PrintedHasNoNewline(r);
    LinesOfWritten([line]);
  }

  lemma PrintedHasMark(r: Record)
    ensures Managed(LineOf(r))
  {
    var line := LineOf(r);
    var p := |"restrict,pty" + " " + (r.kind + " " + (r.key + " "))|;
    assert line[p..p + |MARK|] == MARK;
    assert MatchesAt(line, MARK, p);
  }

  lemma PrintedHasNoNewline(r: Record)
    requires NoSpace(r.kind) && NoSpace(r.key) && '\n' !in r.id
    ensures '\n' !in LineOf(r)
  {
    assert IsSpace('\n');
    assert '\n' !in r.kind && '\n' !in r.key;
    assert '\n' !in FormatInt(r.expiry);
  }

  lemma ManagedLinesFollow(lines: seq<string>, records: seq<Record>, op: Op)
    requires Accepted(op) && Sane(op)
    requires Filter(Managed, lines) == Print(records)
    requires forall r :: r in records ==> Proper(r)
    ensures Filter(Managed, Changed(lines, op)) == Print(ApplyRecords(records, op))
  {
    match op
    case Remove(id) => SessionFilter(lines, records, id);
    case Reconcile(now) =>
      forall r | r in records ensures LiveAt(now)(LineOf(r)) <==> ExpiresAfter(now)(r) {
        KeepsExactlyUnexpired(r, now);
      }
      FilterFilter(Managed, LiveAt(now), lines);
      FilterPrinted(records, LiveAt(now), ExpiresAfter(now));
    case Install(id, publicKey, expires) =>
      SessionFilter(lines, records, id);
      var added := RecordFor(op);
      NeedleFindsExactly(added, id);
      FilterConcat(Managed, Filter(WithoutSession(id), lines), [LineOf(added)]);
      FilterAll(Managed, [LineOf(added)]);
      PrintConcat(Filter(OtherThan(id), records), [added]);
      assert Print([added]) == [LineOf(added)];
  }

  lemma SessionFilter(lines: seq<string>, records: seq<Record>, id: string)
    requires Plain(id) && Filter(Managed, lines) == Print(records)
    requires forall r :: r in records ==> Proper(r)
    ensures Filter(Managed, Filter(WithoutSession(id), lines)) == Print(Filter(OtherThan(id), records))
  {
    forall r | r in records ensures WithoutSession(id)(LineOf(r)) <==> OtherThan(id)(r) {
      NeedleFindsExactly(r, id);
    }
    FilterFilter(Managed, WithoutSession(id), lines);
    FilterPrinted(records, WithoutSession(id), OtherThan(id));
  }

  lemma CleanLine(r: Record)
    requires Proper(r)
    ensures Clean(LineOf(r))
  {
    var line := LineOf(r);
    assert line[|line| - 1] == FormatInt(r.expiry)[|FormatInt(r.expiry)| - 1];
    assert line[|line| - 1] in FormatInt(r.expiry);
    assert IsSpace('\n');
  }

  lemma RepresentsStep(file: Option<string>, foreign: seq<string>, records: seq<Record>, op: Op)
    requires Represents(file, foreign, records) && Sane(op)
    ensures Represents(Apply(file, op), foreign, ApplyRecords(records, op))
  {
    if Accepted(op) {
      var lines := Lines(Content(file));
      var after := Changed(lines, op);
      ForeignLinesFiltered(lines, op);
      ManagedLinesFollow(lines, records, op);
      ChangedStaysClean(lines, op);
      WrittenReadsBackExactly(after);
      RecordsStayProper(records, op);
    }
  }

  lemma ChangedStaysClean(lines: seq<string>, op: Op)
    requires Accepted(op) && Sane(op)
    requires forall l :: l in lines ==> Clean(l) && |l| <= MAX_LINE
    ensures forall l :: l in Changed(lines, op) ==> Clean(l) && |l| <= MAX_LINE
  {
    match op
    case Remove(id) => FilterMembers(WithoutSession(id), lines);
    case Reconcile(now) => FilterMembers(LiveAt(now), lines);
    case Install(id, _, _) =>
      FilterMembers(WithoutSession(id), lines);
      CleanLine(RecordFor(op));
  }

  lemma RecordsStayProper(records: seq<Record>, op: Op)
    requires Accepted(op) && Sane(op) && DistinctIds(records) && forall r :: r in records ==> Proper(r)
    ensures var after := ApplyRecords(records, op);
            DistinctIds(after) && forall r :: r in after ==> Proper(r)
  {
    match op
    case Remove(id) =>
      FilterMembers(OtherThan(id), records);
      FilterDistinct(OtherThan(id), records);
    case Reconcile(now) =>
      FilterMembers(ExpiresAfter(now), records);
      FilterDistinct(ExpiresAfter(now), records);
    case Install(id, _, _) =>
      FilterMembers(OtherThan(id), records);
      FilterDistinct(OtherThan(id), records);
      var kept := Filter(OtherThan(id), records);
      assert forall i :: 0 <= i < |kept| ==> kept[i] in kept;
  }

  /** Over any sequence of operations the file is exactly the foreign lines it began with plus one
      line per record of the text-free list, whose ids are distinct. */
  lemma {:induction false} FileRefinesRecords(file: Option<string>, foreign: seq<string>, records: seq<Record>,
      ops: seq<Op>)
    requires Represents(file, foreign, records)
    requires forall i :: 0 <= i < |ops| ==> Sane(ops[i])
    ensures Represents(Run(file, ops), foreign, RunRecords(records, ops))
  {
    if ops == [] {
    } else {
      FileRefinesRecords(file, foreign, records, ops[..|ops| - 1]);
      RepresentsStep(Run(file, ops[..|ops| - 1]), foreign, RunRecords(records, ops[..|ops| - 1]), ops[|ops| - 1]);
    }
  }

  // ---- What the refinement means for one session ----

  function OfSession(id: string): string -> bool {
    line => Contains(line, Needle(id))
  }

  function SameId(id: string): Record -> bool {
    (r: Record) => r.id == id
  }

  lemma {:induction false} FilterImplied<T>(f: T -> bool, g: T -> bool, s: seq<T>)
    requires forall x :: x in s && f(x) ==> g(x)
    ensures Filter(f, Filter(g, s)) == Filter(f, s)
  {
    if s == [] {
    } else {
      assert s[0] in s && forall x :: x in s[1..] ==> x in s;
      FilterImplied(f, g, s[1..]);
      FilterConcat(f, if g(s[0]) then [s[0]] else [], Filter(g, s[1..]));
      FilterOne(f, s[0]);
    }
  }

  lemma {:induction false} AtMostOne(records: seq<Record>, id: string)
    requires DistinctIds(records)
    ensures |Filter(SameId(id), records)| <= 1
  {
    if records == [] {
    } else {
      var rest := records[1..];
      AtMostOne(rest, id);
      if records[0].id == id {
        assert forall i :: 0 <= i < |rest| ==> rest[i] == records[i + 1];
        FilterNone(SameId(id), rest);
      }
    }
  }

  /** Each session has at most one line in the file: the printed form of its record, if it has one. */
  lemma {:induction false} SessionHasOneLine(file: Option<string>, foreign: seq<string>, records: seq<Record>,
      id: string)
    requires Represents(file, foreign, records) && Plain(id)
    ensures Filter(OfSession(id), Lines(Content(file))) == Print(Filter(SameId(id), records))
    ensures |Filter(SameId(id), records)| <= 1
  {
    var lines := Lines(Content(file));
    forall l | l in lines && OfSession(id)(l) ensures Managed(l) {
      ContainsPrefixOf(l, Needle(id), MARK);
    }
    FilterImplied(OfSession(id), Managed, lines);
    forall r | r in records ensures OfSession(id)(LineOf(r)) <==> SameId(id)(r) {
      NeedleFindsExactly(r, id);
    }
    FilterPrinted(records, OfSession(id), SameId(id));
    AtMostOne(records, id);
  }

  /** The records a session is left with, given those it had (at most one). */
  function Left(own: seq<Record>, op: Op, id: string): seq<Record>
    requires Accepted(op)
  {
    match op
    case Install(x, _, _) => if x == id then [RecordFor(op)] else own
    case Remove(x) => if x == id then [] else own
    case Reconcile(now) => if own != [] && own[0].expiry > now then own else []
  }

  /** Install and Remove leave every other session's line alone; after an accepted Install the session
      has exactly its new line, after Remove none, after Reconcile the line it had unless expired. */
  lemma {:induction false} SessionEffects(file: Option<string>, foreign: seq<string>, records: seq<Record>, op: Op,
      id: string)
    requires Represents(file, foreign, records) && Sane(op) && Accepted(op) && Plain(id)
    ensures Filter(OfSession(id), Lines(Content(Apply(file, op)))) == Print(Left(Filter(SameId(id), records), op, id))
  {
    RepresentsStep(file, foreign, records, op);
    SessionHasOneLine(Apply(file, op), foreign, ApplyRecords(records, op), id);
    SessionRecords(records, op, id);
  }

  lemma SessionRecords(records: seq<Record>, op: Op, id: string)
    requires DistinctIds(records) && Accepted(op)
    ensures Filter(SameId(id), ApplyRecords(records, op)) == Left(Filter(SameId(id), records), op, id)
  {
    match op
    case Remove(x) => RecordEffects(records, x, id);
    case Install(x, _, _) =>
      RecordEffects(records, x, id);
      FilterConcat(SameId(id), Filter(OtherThan(x), records), [RecordFor(op)]);
      FilterOne(SameId(id), RecordFor(op));
    case Reconcile(now) =>
      AtMostOne(records, id);
      FilterMembers(SameId(id), records);
      FilterFilter(SameId(id), ExpiresAfter(now), records);
      var own := Filter(SameId(id), records);
      if own != [] {
        assert own == [own[0]];
        FilterOne(ExpiresAfter(now), own[0]);
      }
  }

  lemma RecordEffects(records: seq<Record>, x: string, id: string)
    ensures Filter(SameId(id), Filter(OtherThan(x), records)) == if x == id then [] else Filter(SameId(id), records)
  {
    if x == id {
      FilterMembers(OtherThan(x), records);
      FilterNone(SameId(id), Filter(OtherThan(x), records));
    } else {
      FilterImplied(SameId(id), OtherThan(x), records);
    }
  }
}
