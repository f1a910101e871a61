/** The agent's job handler (internal/agent/handler.go): one per connection, it drops jobs for other
    agents, late jobs and duplicates, and dispatches the rest once. */
module AgentHandler {
  import opened Common
  import opened Protocol

  function Key(job: Job): string {
    job.id + "\0" + job.dispatchId
  }

  function Keys(jobs: seq<Job>): set<string> {
    set n | 0 <= n < |jobs| :: Key(jobs[n])
  }

  /** The job reaches the dispatcher; `now` in milliseconds. */
  predicate Runs(agentId: string, seen: set<string>, job: Job, now: int) {
    && (agentId == "" || job.agent == agentId)
    && job.id != "" && job.dispatchId != "" && job.attempt != 0
    && now <= job.deadline
    && Key(job) !in seen
  }

  class Handler {
    const agentId: string
    const canSend: bool
    var seen: set<string>
    ghost var dispatched: seq<Job>

    ghost predicate Valid()
      reads this
    {
      seen == Keys(dispatched)
    }

    constructor (agentId: string, canSend: bool)
      ensures Valid() && dispatched == [] && this.agentId == agentId && this.canSend == canSend
    {
      this.agentId, this.canSend, seen, dispatched := agentId, canSend, {}, [];
    }

    /** The message sent back, if any. A message that is not a job is ignored. */
    method Handle(message: Message, now: int, contextDone: bool, run: Outcome) returns (sent: Option<JobResult>)
      requires Valid()
      modifies this
      ensures Valid()
      ensures var runs := message.JobMessage? && Runs(agentId, Keys(old(dispatched)), message.job, now);
              && dispatched == (if runs then old(dispatched) + [message.job] else old(dispatched))
              && sent == if runs && canSend then Some(DispatchResult(message.job, contextDone, run)) else None
      ensures dispatched != old(dispatched) <==>
                && message.JobMessage? && (agentId == message.job.agent || agentId == "")
                && message.job.id != "" && message.job.dispatchId != "" && message.job.attempt > 0
                && message.job.deadline >= now
                && forall n :: 0 <= n < |old(dispatched)| ==>
                     old(dispatched)[n].id + "\0" + old(dispatched)[n].dispatchId
                         != message.job.id + "\0" + message.job.dispatchId
    {
      if !message.JobMessage? {
        return None;
      }
      var job := message.job;
      if agentId != "" && job.agent != agentId {
        return None;
      }
      if job.id == "" || job.dispatchId == "" || job.attempt == 0 {
        return None;
      }
      if now > job.deadline {
        return None;
      }
      var key := job.id + "\0" + job.dispatchId;
      if key in seen {
        return None;
      }
      KeysSnoc(dispatched, job);
      seen := seen + {key};
      dispatched := dispatched + [job];
      var result, ran := Dispatch(job, contextDone, run);
      if !canSend {
        return None;
      }
      return Some(result);
    }
  }

  lemma KeysSnoc(jobs: seq<Job>, job: Job)
    ensures Keys(jobs + [job]) == Keys(jobs) + {Key(job)}
  {
    var more := jobs + [job];
    assert forall n :: 0 <= n < |jobs| ==> more[n] == jobs[n];
    assert Key(job) in Keys(more) by { assert more[|jobs|] == job; }
    forall k | k in Keys(jobs) ensures k in Keys(more) {
      var n :| 0 <= n < |jobs| && Key(jobs[n]) == k;
      assert Key(more[n]) == k;
    }
  }

  /** Keys of identifiers without the separator are equal only for the same identifiers. */
  lemma {:induction false} KeyIsInjective(a: Job, b: Job)
    requires '\0' !in a.id && '\0' !in b.id && Key(a) == Key(b)
    ensures a.id == b.id && a.dispatchId == b.dispatchId
  {
    var k := Key(a);
    forall j | 0 <= j < |a.id| ensures k[j] != '\0' {
      assert k[j] == a.id[j] && a.id[j] in a.id;
    }
    forall j | 0 <= j < |b.id| ensures k[j] != '\0' {
      assert k[j] == b.id[j] && b.id[j] in b.id;
    }
    assert k[|a.id|] == '\0' && k[|b.id|] == '\0';
    assert |a.id| == |b.id|;
    assert a.id == k[..|a.id|] && b.id == k[..|b.id|];
    assert a.dispatchId == k[|a.id| + 1..] && b.dispatchId == k[|b.id| + 1..];
  }
}
