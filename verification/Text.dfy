/** The string operations the key store relies on, on bytes (ASCII white space). */
module Text {
  import opened Common

  predicate IsSpace(c: char) {
    c == ' ' || c == '\t' || c == '\n' || c == '\r' || c == 11 as char || c == 12 as char
  }

  predicate NoSpace(s: string) {
    forall c :: c in s ==> !IsSpace(c)
  }

  predicate MatchesAt(s: string, sub: string, i: int) {
    0 <= i <= |s| - |sub| && s[i..i + |sub|] == sub
  }

  predicate Contains(s: string, sub: string) {
    exists i :: 0 <= i <= |s| && MatchesAt(s, sub, i)
  }

  // ---- Fields ----

  /** Length of the leading run of non-space characters. */
  function WordEnd(s: string): (n: nat)
    ensures n <= |s| && NoSpace(s[..n]) && (n < |s| ==> IsSpace(s[n]))
  {
    if s == "" || IsSpace(s[0]) then 0
    else
      var n := 1 + WordEnd(s[1..]);
      assert s[..n] == [s[0]] + s[1..][..n - 1];
      n
  }

  function Fields(s: string): (fields: seq<string>)
    ensures forall f :: f in fields ==> f != "" && NoSpace(f)
    decreases |s|
  {
    if s == "" then []
    else if IsSpace(s[0]) then Fields(s[1..])
    else var n := WordEnd(s); [s[..n]] + Fields(s[n..])
  }

  lemma {:induction false} WordEndAt(a: string, rest: string)
    requires NoSpace(a) && (rest == "" || IsSpace(rest[0]))
    ensures WordEnd(a + rest) == |a|
  {
    if a == "" {
      assert a + rest == rest;
    } else {
      assert (a + rest)[1..] == a[1..] + rest;
      WordEndAt(a[1..], rest);
    }
  }

  lemma FieldsOfWord(a: string)
    requires NoSpace(a) && a != ""
    ensures Fields(a) == [a]
  {
    WordEndAt(a, "");
    assert a + "" == a && a[|a|..] == "" && a[..|a|] == a;
  }

  lemma FieldsCons(a: string, rest: string)
    requires NoSpace(a) && a != ""
    ensures Fields(a + " " + rest) == [a] + Fields(rest)
  {
    var s := a + " " + rest;
    assert s == a + (" " + rest);
    WordEndAt(a, " " + rest);
    assert s[..|a|] == a && s[|a|..] == " " + rest;
    assert (" " + rest)[1..] == rest;
  }

  lemma {:induction false} FieldsAreSubstrings(s: string, f: string)
    requires f in Fields(s)
    ensures Contains(s, f)
    decreases |s|
  {
    if IsSpace(s[0]) {
      FieldsAreSubstrings(s[1..], f);
      var i :| 0 <= i <= |s[1..]| && MatchesAt(s[1..], f, i);
      assert MatchesAt(s, f, i + 1);
    } else {
      var n := WordEnd(s);
      if f == s[..n] {
        assert MatchesAt(s, f, 0);
      } else {
        FieldsAreSubstrings(s[n..], f);
        var i :| 0 <= i <= |s[n..]| && MatchesAt(s[n..], f, i);
        assert MatchesAt(s, f, i + n);
      }
    }
  }

  lemma ContainsPrefixOf(s: string, sub: string, pre: string)
    requires Contains(s, sub) && pre <= sub
    ensures Contains(s, pre)
  {
    var i :| 0 <= i <= |s| && MatchesAt(s, sub, i);
    assert s[i..i + |pre|] == s[i..i + |sub|][..|pre|] == pre;
    assert MatchesAt(s, pre, i);
  }

  // ---- Split and lines ----

  /** strings.Split(s, [sep]). */
  function Split(s: string, sep: char): (parts: seq<string>)
    ensures |parts| >= 1
    ensures forall p :: p in parts ==> sep !in p
  {
    if s == "" then [""]
    else
      var rest := Split(s[1..], sep);
      if s[0] == sep then [""] + rest else [[s[0]] + rest[0]] + rest[1..]
  }

  lemma {:induction false} SplitCons(a: string, b: string, sep: char)
    requires sep !in a
    ensures Split(a + [sep] + b, sep) == [a] + Split(b, sep)
  {
    var s := a + [sep] + b;
    if a == "" {
      assert s[1..] == b;
    } else {
      assert s[1..] == a[1..] + [sep] + b;
      SplitCons(a[1..], b, sep);
      assert [s[0]] + a[1..] == a;
    }
  }

  lemma {:induction false} SplitOne(a: string, sep: char)
    ensures Split(a, sep) == [a] <==> sep !in a
    ensures |Split(a, sep)| == 1 <==> sep !in a
  {
    if a == "" {
    } else {
      SplitOne(a[1..], sep);
      assert sep in a <==> sep == a[0] || sep in a[1..];
      if sep !in a {
        assert [a[0]] + a[1..] == a;
      }
    }
  }

  // ---- Decimal integers ----

  predicate IsDigit(c: char) {
    '0' <= c <= '9'
  }

  function Digits(n: nat): (s: string)
    ensures s != "" && forall c :: c in s ==> IsDigit(c)
  {
    var d := ['0' + (n % 10) as char];
    if n < 10 then d else Digits(n / 10) + d
  }

  function Decimal(s: string): nat
    requires forall c :: c in s ==> IsDigit(c)
  {
    if s == "" then 0
    else
      var last := |s| - 1;
      assert IsDigit(s[last]);
      Decimal(s[..last]) * 10 + (s[last] as int - '0' as int)
  }

  lemma {:induction false} DecimalOfDigits(n: nat)
    ensures Decimal(Digits(n)) == n
  {
    var s := Digits(n);
    var last := |s| - 1;
    if n < 10 {
      assert s[..last] == "";
    } else {
      DecimalOfDigits(n / 10);
      assert s[..last] == Digits(n / 10);
    }
    assert s[last] == '0' + (n % 10) as char;
  }

  function FormatInt(n: int): (s: string)
    ensures s != "" && NoSpace(s) && ':' !in s
    ensures forall c :: c in s ==> IsDigit(c) || c == '-'
  {
    if n < 0 then "-" + Digits(-n) else Digits(n)
  }

  /** strconv.ParseInt(s, 10, 64). */
  function ParseInt64(s: string): (n: Option<int>) {
    if s == "" then None
    else
      var negative := s[0] == '-';
      var body := if s[0] == '-' || s[0] == '+' then s[1..] else s;
      if body == "" || exists c :: c in body && !IsDigit(c) then None
      else
        var v: int := if negative then -(Decimal(body) as int) else Decimal(body);
        if -0x8000_0000_0000_0000 <= v < 0x8000_0000_0000_0000 then Some(v) else None
  }

  lemma {:induction false} ParseOfFormat(n: int)
    ensures ParseInt64(FormatInt(n)) == if -0x8000_0000_0000_0000 <= n < 0x8000_0000_0000_0000 then Some(n) else None
  {
    if n < 0 {
      DecimalOfDigits(-n);
      assert FormatInt(n)[1..] == Digits(-n);
    } else {
      DecimalOfDigits(n);
      assert Digits(n)[0] in Digits(n);
    }
  }

  /** A leading plus sign is allowed. */
  lemma {:induction false} ParseOfPlus(n: nat)
    ensures ParseInt64("+" + FormatInt(n)) == ParseInt64(FormatInt(n))
  {
    var s := "+" + FormatInt(n);
    assert s[1..] == FormatInt(n) == Digits(n);
    assert Digits(n)[0] in Digits(n);
  }

  // ---- Filtering ----

  function Filter<T>(keep: T -> bool, s: seq<T>): seq<T> {
    if s == [] then [] else (if keep(s[0]) then [s[0]] else []) + Filter(keep, s[1..])
  }

  lemma {:induction false} FilterConcat<T>(keep: T -> bool, a: seq<T>, b: seq<T>)
    ensures Filter(keep, a + b) == Filter(keep, a) + Filter(keep, b)
  {
    if a == [] {
      assert a + b == b;
    } else {
      FilterConcat(keep, a[1..], b);
      assert (a + b)[0] == a[0] && (a + b)[1..] == a[1..] + b;
      var head := if keep(a[0]) then [a[0]] else [];
      assert head + (Filter(keep, a[1..]) + Filter(keep, b)) == (head + Filter(keep, a[1..])) + Filter(keep, b);
    }
  }

  lemma FilterOne<T>(keep: T -> bool, x: T)
    ensures Filter(keep, [x]) == if keep(x) then [x] else []
  {}

  lemma FilterSnoc<T>(keep: T -> bool, s: seq<T>, i: nat)
    requires i < |s|
    ensures Filter(keep, s[..i + 1]) == Filter(keep, s[..i]) + if keep(s[i]) then [s[i]] else []
  {
    FilterConcat(keep, s[..i], [s[i]]);
    FilterOne(keep, s[i]);
    assert s[..i + 1] == s[..i] + [s[i]];
  }

  lemma {:induction false} FilterFilter<T>(f: T -> bool, g: T -> bool, s: seq<T>)
    ensures Filter(f, Filter(g, s)) == Filter(g, Filter(f, s))
  {
    if s == [] {
    } else {
      FilterFilter(f, g, s[1..]);
      FilterConcat(f, if g(s[0]) then [s[0]] else [], Filter(g, s[1..]));
      FilterConcat(g, if f(s[0]) then [s[0]] else [], Filter(f, s[1..]));
    }
  }

  lemma {:induction false} FilterMembers<T>(keep: T -> bool, s: seq<T>)
    ensures forall x :: x in Filter(keep, s) <==> x in s && keep(x)
    ensures |Filter(keep, s)| <= |s|
  {
    if s == [] {
    } else {
      FilterMembers(keep, s[1..]);
      assert forall x :: x in s <==> x == s[0] || x in s[1..];
    }
  }

  lemma {:induction false} FilterAll<T>(keep: T -> bool, s: seq<T>)
    requires forall x :: x in s ==> keep(x)
    ensures Filter(keep, s) == s
  {
    if s == [] {
    } else {
      FilterAll(keep, s[1..]);
    }
  }

  lemma {:induction false} FilterNone<T>(keep: T -> bool, s: seq<T>)
    requires forall x :: x in s ==> !keep(x)
    ensures Filter(keep, s) == []
  {
    if s == [] {
    } else {
      FilterNone(keep, s[1..]);
    }
  }
}
