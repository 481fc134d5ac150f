/**
 * An in-memory stand-in for the etcd cluster as leader.c sees it: the one
 * election key, read with etcd_get and written with etcd_set under the
 * contract etcd-api.h states (a NULL precondition is an unconditional set;
 * otherwise the write happens only if the current value equals it).
 *
 * Other clients, lease expiry and network trouble act on the key between
 * two requests of this client; an `EnvStep` says what happened.
 */
module EtcdStore {
  import opened Wrappers
  import opened CString

  datatype EtcdResult = EtcdOk | EtcdProtocolError | EtcdWtf

  /** What happens at the cluster just before one request of this client. */
  datatype EnvStep =
    | Quiet                     // nothing
    | Expire                    // the value's lease lapses: the key disappears
    | Overwrite(value: string)  // another client's write lands
    | Outage                    // this request does not reach the cluster

  predicate ValidStep(e: EnvStep) { e.Overwrite? ==> IsCString(e.value) }

  predicate ValidSchedule(env: seq<EnvStep>) { forall i :: 0 <= i < |env| ==> ValidStep(env[i]) }

  /** One etcd_set call issued by this client. */
  datatype Request = Request(value: string, precond: Option<string>, ttl: nat)

  /** The key after an environment step. */
  function Affect(cell: Option<string>, e: EnvStep): Option<string>
  {
    match e
    case Quiet => cell
    case Expire => None
    case Overwrite(v) => Some(v)
    case Outage => cell
  }

  /** etcd_get: the value, or NULL when the key is absent or the cluster is out of reach. */
  function Read(cell: Option<string>, up: bool): (r: Option<string>)
    ensures up ==> r == cell
    ensures r.Some? ==> r == cell
    ensures cell.None? ==> r.None?
  {
    if up then cell else None
  }

  /** etcd_set's result: transport failure, rejected precondition, or success. */
  function SetResult(cell: Option<string>, up: bool, precond: Option<string>): (r: EtcdResult)
    ensures up && precond.None? ==> r == EtcdOk
    ensures up && precond.Some? && precond == cell ==> r == EtcdOk
    ensures precond.Some? && precond != cell ==> r != EtcdOk
    ensures !up ==> r != EtcdOk
  {
    if !up then EtcdWtf
    else if precond.None? || precond == cell then EtcdOk
    else EtcdProtocolError
  }

  /** The key after etcd_set. */
  function SetCell(cell: Option<string>, up: bool, value: string, precond: Option<string>): (r: Option<string>)
    ensures r == cell || r == Some(value)
    ensures SetResult(cell, up, precond) == EtcdOk ==> r == Some(value)
    ensures r != cell ==> SetResult(cell, up, precond) == EtcdOk
  {
    if SetResult(cell, up, precond) == EtcdOk then Some(value) else cell
  }

  /**
   * Compare-and-swap: of two writes that present the same prior value as
   * their precondition, at most the first succeeds once it changed the value.
   */
  lemma AtMostOneAdvancePerValue(cell: Option<string>, prior: string, v1: string, v2: string)
    requires v1 != prior
    requires SetResult(cell, true, Some(prior)) == EtcdOk
    ensures SetResult(SetCell(cell, true, v1, Some(prior)), true, Some(prior)) != EtcdOk
  {
  }

  class Store {
    /** The election key: None when it does not exist. */
    var cell: Option<string>
    /** Whether the cluster is reachable for the current request. */
    var up: bool
    /** Every etcd_set this client issued, in order. */
    var sent: seq<Request>

    ghost predicate Valid()
      reads this
    {
      cell.Some? ==> IsCString(cell.value)
    }

    constructor (initial: Option<string>)
      requires initial.Some? ==> IsCString(initial.value)
      ensures Valid() && cell == initial && up && sent == []
    {
      cell, up, sent := initial, true, [];
    }

    /** Whatever the rest of the world does before this client's next request. */
    method Between(e: EnvStep)
      requires Valid() && ValidStep(e)
      modifies this`cell, this`up
      ensures Valid() && cell == Affect(old(cell), e) && up == !e.Outage?
    {
      cell := Affect(cell, e);
      up := !e.Outage?;
    }

    /**
     * etcd_get in the form leader.c uses (etcd-api.h): a freshly allocated,
     * NUL-terminated copy of the value, or NULL.
     */
    method Get() returns (text: array?<char>)
      requires Valid()
      ensures Read(cell, up).None? ==> text == null
      ensures Read(cell, up).Some? ==> text != null && fresh(text) && text[..] == cell.value + ['\0']
    {
      if up && cell.Some? {
        var v := cell.value;
        text := new char[|v| + 1](i requires 0 <= i <= |v| => if i < |v| then v[i] else '\0');
        assert text[..] == v + ['\0'];
      } else {
        text := null;
      }
    }

    /** etcd_set(session, key, value, precond, ttl). */
    method Set(value: string, precond: Option<string>, ttl: nat) returns (r: EtcdResult)
      requires Valid() && IsCString(value)
      modifies this`cell, this`sent
      ensures Valid()
      ensures r == SetResult(old(cell), up, precond)
      ensures cell == SetCell(old(cell), up, value, precond)
      ensures sent == old(sent) + [Request(value, precond, ttl)]
    {
      sent := sent + [Request(value, precond, ttl)];
      r := SetResult(cell, up, precond);
      if r == EtcdOk {
        cell := Some(value);
      }
    }
  }
}
