/**
 * etcd-api.c: the session a client opens on a list of servers, the
 * failover scan of etcd_get over that list, and write_data, the libcurl
 * write callback that copies a response chunk into the caller's buffer.
 *
 * etcd_get_one (one HTTP GET through libcurl) is not modelled: what it
 * returns for each server of the list is given as `replies`, position by
 * position.
 */
module EtcdApi {
  import opened Wrappers

  newtype byte = x: int | 0 <= x < 256

  /** etcd_server: host name and port; an entry whose host is NULL ends the list. */
  datatype Server = Server(host: Option<string>, port: nat)

  /** The list holds its terminating entry. */
  predicate Terminated(servers: seq<Server>)
  {
    exists k :: 0 <= k < |servers| && servers[k].host.None?
  }

  /** Offset of the terminating entry at or after `i`: the servers before it are the list. */
  function SentinelFrom(servers: seq<Server>, i: nat): (k: nat)
    requires i <= |servers|
    requires exists j :: i <= j < |servers| && servers[j].host.None?
    ensures i <= k < |servers| && servers[k].host.None?
    ensures forall j :: i <= j < k ==> servers[j].host.Some?
    decreases |servers| - i
  {
    if servers[i].host.None? then i else SentinelFrom(servers, i + 1)
  }

  function Sentinel(servers: seq<Server>): (k: nat)
    requires Terminated(servers)
    ensures k < |servers| && servers[k].host.None?
    ensures forall j :: 0 <= j < k ==> servers[j].host.Some?
  {
    SentinelFrom(servers, 0)
  }

  /** _etcd_session: the server list the session was opened on. */
  class Session {
    var servers: seq<Server>

    constructor (serverList: seq<Server>)
      ensures servers == serverList
    {
      servers := serverList;
    }
  }

  /**
   * etcd_open (etcd-api.c:29-46): NULL when the allocation fails
   * (`mallocOk` says whether malloc succeeded), otherwise a new session
   * that holds exactly the list it was given.
   */
  method Open(serverList: seq<Server>, mallocOk: bool) returns (s: Session?)
    ensures !mallocOk ==> s == null
    ensures mallocOk ==> s != null && fresh(s) && s.servers == serverList
  {
    if !mallocOk {
      return null;
    }
    s := new Session(serverList);
  }

  /**
   * etcd_get (etcd-api.c:121-136): ask each server in list order; the first
   * non-negative result is returned and no later server is asked; -1 when
   * every server failed or the list is empty. `replies[k]` is what
   * etcd_get_one returns for the k-th entry, and `contacted` counts the
   * servers asked.
   */
  method Get(session: Session, replies: seq<int>) returns (n: int, contacted: nat)
    requires Terminated(session.servers) && |replies| == |session.servers|
    ensures contacted <= Sentinel(session.servers)
    ensures forall k :: 0 <= k < contacted ==> session.servers[k].host.Some?
    ensures n >= 0 ==> 0 < contacted && n == replies[contacted - 1]
    ensures n >= 0 ==> forall k :: 0 <= k < contacted - 1 ==> replies[k] < 0
    ensures n < 0 ==> n == -1 && contacted == Sentinel(session.servers)
    ensures n == -1 <==> forall k :: 0 <= k < Sentinel(session.servers) ==> replies[k] < 0
  {
    var servers := session.servers;
    ghost var last := Sentinel(servers);
    var i := 0;
    while servers[i].host.Some?
      invariant i <= last
      invariant forall k :: 0 <= k < i ==> replies[k] < 0
      decreases last - i
    {
      var nRead := replies[i];  // etcd_get_one(this, key, buf, len, srv)
      if nRead >= 0 {
        return nRead, i + 1;
      }
      i := i + 1;
    }
    return -1, i;
  }

  function Min(a: nat, b: nat): (m: nat)
    ensures m <= a && m <= b && (m == a || m == b)
  {
    if a <= b then a else b
  }

  /**
   * What write_data does to the destination: the first min(|chunk|, max)
   * bytes become the chunk's, and nothing else changes.
   */
  function Deliver(buf: seq<byte>, max: nat, chunk: seq<byte>): (r: seq<byte>)
    requires max <= |buf|
    ensures |r| == |buf|
    ensures forall k :: 0 <= k < Min(|chunk|, max) ==> r[k] == chunk[k]
    ensures forall k :: Min(|chunk|, max) <= k < |buf| ==> r[k] == buf[k]
  {
    var n := Min(|chunk|, max);
    chunk[..n] + buf[n..]
  }

  /** etcd_buffer: the caller's buffer, its capacity and the byte count reported so far. */
  class EtcdBuffer {
    const ptr: array<byte>
    const max: nat
    var res: nat

    ghost predicate Valid()
      reads this
    {
      max <= ptr.Length
    }

    /** etcd_get_one's set-up (etcd-api.c:99-101). */
    constructor (buf: array<byte>, len: nat)
      requires len <= buf.Length
      ensures Valid() && ptr == buf && max == len && res == 0
    {
      ptr, max, res := buf, len, 0;
    }

    /**
     * write_data (etcd-api.c:56-68): libcurl hands over `size * nmemb`
     * bytes; at most `max` of them are copied to the start of the buffer,
     * and that count is both recorded in `res` and returned.
     */
    method WriteData(data: seq<byte>, size: nat, nmemb: nat) returns (written: nat)
      requires Valid() && size * nmemb <= |data|
      modifies this`res, ptr
      ensures Valid()
      ensures res == Min(size * nmemb, max) && written == res
      ensures ptr[..] == Deliver(old(ptr[..]), max, data[..size * nmemb])
    {
      res := size * nmemb;
      if res > max {
        res := max;
      }
      forall k | 0 <= k < res {
        ptr[k] := data[k];
      }
      written := res;
    }
  }

  // ------------------------------------------------------------ findings

  /** The bytes of a response, in the order libcurl delivers its chunks. */
  function Flatten(chunks: seq<seq<byte>>): (body: seq<byte>)
  {
    if chunks == [] then [] else Flatten(chunks[..|chunks| - 1]) + chunks[|chunks| - 1]
  }

  /** The buffer and `res` after write_data was called once per chunk, as written. */
  function DeliverAll(buf: seq<byte>, max: nat, chunks: seq<seq<byte>>): (r: (seq<byte>, nat))
    requires max <= |buf|
    ensures |r.0| == |buf| && r.1 <= max
  {
    if chunks == [] then (buf, 0)
    else
      var last := chunks[|chunks| - 1];
      (Deliver(DeliverAll(buf, max, chunks[..|chunks| - 1]).0, max, last), Min(|last|, max))
  }

  /**
   * Every call copies to the start of the buffer and replaces `res`: a
   * body that arrives as the two chunks [1, 2] and [3] leaves [3, 2] at the
   * front of the buffer and reports one byte, though the body was
   * [1, 2, 3] and fitted.
   */
  lemma MultiChunkBodyIsTruncated()
    ensures var chunks: seq<seq<byte>> := [[1, 2], [3]];
            && Flatten(chunks) == [1, 2, 3]
            && DeliverAll([0, 0, 0, 0], 4, chunks) == ([3, 2, 0, 0], 1)
  {
    var chunks: seq<seq<byte>> := [[1, 2], [3]];
    var buf: seq<byte> := [0, 0, 0, 0];
    assert chunks[..1] == [[1, 2]] && chunks[..1][..0] == [];
    assert Flatten(chunks[..1]) == [1, 2];
    assert Deliver(buf, 4, [1, 2]) == [1, 2, 0, 0];
    assert DeliverAll(buf, 4, chunks[..1]) == ([1, 2, 0, 0], 2);
    assert Deliver([1, 2, 0, 0], 4, [3]) == [3, 2, 0, 0];
  }

  /**
   * The evidently intended callback: copy the chunk behind the `res` bytes
   * already received, as far as the capacity allows, and add the count.
   */
  function Append(buf: seq<byte>, max: nat, res: nat, chunk: seq<byte>): (r: (seq<byte>, nat))
    requires res <= max <= |buf|
    ensures |r.0| == |buf| && r.1 == res + Min(|chunk|, max - res)
    ensures r.0[..res] == buf[..res] && r.0[res..r.1] == chunk[..r.1 - res] && r.0[r.1..] == buf[r.1..]
  {
    var n := Min(|chunk|, max - res);
    (buf[..res] + chunk[..n] + buf[res + n..], res + n)
  }

  function AppendAll(buf: seq<byte>, max: nat, chunks: seq<seq<byte>>): (r: (seq<byte>, nat))
    requires max <= |buf|
    ensures |r.0| == |buf| && r.1 <= max
  {
    if chunks == [] then (buf, 0)
    else
      var before := AppendAll(buf, max, chunks[..|chunks| - 1]);
      Append(before.0, max, before.1, chunks[|chunks| - 1])
  }

  /** With appending callbacks the buffer receives the body, cut at the capacity. */
  lemma {:induction false} AppendAllReceivesBody(buf: seq<byte>, max: nat, chunks: seq<seq<byte>>)
    requires max <= |buf|
    ensures var r := AppendAll(buf, max, chunks);
            var body := Flatten(chunks);
            r.1 == Min(|body|, max) && r.0[..r.1] == body[..r.1]
    decreases |chunks|
  {
    if chunks != [] {
      var init, last := chunks[..|chunks| - 1], chunks[|chunks| - 1];
      AppendAllReceivesBody(buf, max, init);
      var before := AppendAll(buf, max, init);
      var r := Append(before.0, max, before.1, last);
      var body := Flatten(init) + last;
      assert Flatten(chunks) == body;
      assert r.0[..r.1] == r.0[..before.1] + r.0[before.1..r.1];
      assert r.0[..before.1] == before.0[..before.1];
      if before.1 < max {
        assert before.1 == |Flatten(init)|;
        assert body[..r.1] == Flatten(init) + last[..r.1 - before.1];
      } else {
        assert r.1 == before.1 == max;
        assert body[..r.1] == Flatten(init)[..r.1];
      }
    }
  }
}
