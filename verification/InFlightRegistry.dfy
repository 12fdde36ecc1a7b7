/**
 The in-flight cancellation registry (crates/application/src/execution/in_flight_registry.rs) as a value, over any
 type of cancellation tokens. The registry owns two maps; `cancelled` is the set of tokens whose flag is set.
 */
module InFlightRegistry {
  import opened Wrappers

  type JobId = string

  datatype CancellationInfo = CancellationInfo(jobId: JobId, byUser: Option<string>, at: Option<string>)

  datatype AttachResult = Running(info: CancellationInfo) | CancelRequested(info: CancellationInfo)

  datatype RequestResult = Accepted(info: CancellationInfo) | AlreadyRequested(info: CancellationInfo)

  datatype Registry<T(==)> = Registry(
    requests: map<JobId, CancellationInfo>,
    tokens: map<JobId, T>,
    cancelled: set<T>)

  function NoRequest(id: JobId): CancellationInfo {
    CancellationInfo(id, None, None)
  }

  function Attach<T>(r: Registry<T>, id: JobId, token: T): (Registry<T>, AttachResult) {
    var attached := r.(tokens := r.tokens[id := token]);
    if id in r.requests then
      (attached.(cancelled := attached.cancelled + {token}), CancelRequested(r.requests[id]))
    else (attached, Running(NoRequest(id)))
  }

  function RequestCancel<T>(r: Registry<T>, id: JobId, user: string, at: string): (Registry<T>, RequestResult) {
    if id in r.requests then (r, AlreadyRequested(r.requests[id]))
    else
      var info := CancellationInfo(id, Some(user), Some(at));
      var recorded := r.(requests := r.requests[id := info]);
      (if id in r.tokens then recorded.(cancelled := r.cancelled + {r.tokens[id]}) else recorded, Accepted(info))
  }

  function Remove<T>(r: Registry<T>, id: JobId): (Registry<T>, Option<CancellationInfo>) {
    (r.(requests := r.requests - {id}, tokens := r.tokens - {id}),
     if id in r.requests then Some(r.requests[id])
     else if id in r.tokens then Some(NoRequest(id))
     else None)
  }

  /** An id with both a recorded request and an attached token has a cancelled token. */
  ghost predicate Sound<T(!new)>(r: Registry<T>) {
    forall id :: id in r.requests && id in r.tokens ==> r.tokens[id] in r.cancelled
  }

  /** The first request wins: later ones report it and change nothing, until the entry is removed. */
  lemma FirstRequestWins<T(!new)>(r: Registry<T>, id: JobId, u1: string, a1: string, u2: string, a2: string, token: T)
    requires Sound(r)
    ensures var r1 := RequestCancel(r, id, u1, a1).0;
      && Sound(r1)
      && RequestCancel(r1, id, u2, a2) == (r1, AlreadyRequested(r1.requests[id]))
      && Attach(r1, id, token).1 == CancelRequested(r1.requests[id])
      && token in Attach(r1, id, token).0.cancelled
      && Remove(r1, id).1 == Some(r1.requests[id])
      && (id !in r.requests ==> r1.requests[id] == CancellationInfo(id, Some(u1), Some(a1)))
  {
  }

  /**
   A request and an attachment cancel the token in either order and leave the same entries; the request that comes first
   also cancels the token attached before, if it is the first request.
   */
  lemma AttachAndRequestCommute<T(!new)>(r: Registry<T>, id: JobId, user: string, at: string, token: T)
    ensures var one := RequestCancel(Attach(r, id, token).0, id, user, at).0;
      var other := Attach(RequestCancel(r, id, user, at).0, id, token).0;
      && one.requests == other.requests && one.tokens == other.tokens
      && id in one.requests && token in one.cancelled
      && other.cancelled == one.cancelled + if id in r.tokens && id !in r.requests then {r.tokens[id]} else {}
  {
  }
}

/** The registry class, whose tokens are shared objects. */
module InFlightJobs {
  import opened Wrappers
  import opened InFlightRegistry
  import Spec = InFlightRegistry

  /** The shared flag of crates/core/src/task/cancellation.rs. */
  class TaskCancellation {
    var cancelled: bool

    constructor ()
      ensures !cancelled
    {
      cancelled := false;
    }

    predicate IsCancelled()
      reads this
    {
      cancelled
    }

    method Cancel()
      modifies this
      ensures IsCancelled()
    {
      cancelled := true;
    }
  }

  class InFlightJobRegistry {
    var cancellationRequests: map<JobId, CancellationInfo>
    var cancellations: map<JobId, TaskCancellation>

    static ghost function CancelledIn(extra: set<TaskCancellation>): set<TaskCancellation>
      reads extra
    {
      set t | t in extra && t.cancelled
    }

    /** The registry as a value; `extra` is the set of tokens in use, attached here or not. */
    ghost function View(extra: set<TaskCancellation>): Registry<TaskCancellation>
      reads this, extra
    {
      Registry(cancellationRequests, cancellations, CancelledIn(extra))
    }

    constructor ()
      ensures cancellationRequests == map[] && cancellations == map[]
    {
      cancellationRequests, cancellations := map[], map[];
    }

    method AttachCancellation(id: JobId, token: TaskCancellation, ghost extra: set<TaskCancellation>)
      returns (r: AttachResult)
      requires token in extra && cancellations.Values <= extra
      modifies this, token
      ensures cancellations.Values <= extra
      ensures (View(extra), r) == Spec.Attach(old(View(extra)), id, token)
    {
      cancellations := cancellations[id := token];
      if id in cancellationRequests {
        token.Cancel();
        assert CancelledIn(extra) == old(CancelledIn(extra)) + {token};
        return CancelRequested(cancellationRequests[id]);
      }
      assert CancelledIn(extra) == old(CancelledIn(extra));
      r := Running(NoRequest(id));
    }

    method RequestCancel(id: JobId, user: string, at: string, ghost extra: set<TaskCancellation>)
      returns (r: RequestResult)
      requires cancellations.Values <= extra
      modifies this, if id in cancellations then {cancellations[id]} else {}
      ensures cancellations.Values <= extra
      ensures (View(extra), r) == Spec.RequestCancel(old(View(extra)), id, user, at)
    {
      if id in cancellationRequests {
        return AlreadyRequested(cancellationRequests[id]);
      }
      var info := CancellationInfo(id, Some(user), Some(at));
      cancellationRequests := cancellationRequests[id := info];
      if id in cancellations {
        cancellations[id].Cancel();
        assert CancelledIn(extra)
            == old(CancelledIn(extra)) + {cancellations[id]};
      } else {
        assert CancelledIn(extra) == old(CancelledIn(extra));
      }
      r := Accepted(info);
    }

    method Remove(id: JobId, ghost extra: set<TaskCancellation>) returns (r: Option<CancellationInfo>)
      requires cancellations.Values <= extra
      modifies this
      ensures cancellations.Values <= extra
      ensures (View(extra), r) == Spec.Remove(old(View(extra)), id)
    {
      r := if id in cancellationRequests then Some(cancellationRequests[id])
      else if id in cancellations then Some(NoRequest(id))
      else None;
      cancellationRequests := cancellationRequests - {id};
      cancellations := cancellations - {id};
      assert CancelledIn(extra) == old(CancelledIn(extra));
    }
  }
}
