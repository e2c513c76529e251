/** How the results of one order key refer to each other. */
module Links {
  import opened BatchTypes

  /** The last of the first n messages that has the order key and was not acked. */
  function LastFailed(c: Ctx, results: seq<Result>, key: string, n: nat): (r: Option<nat>)
    requires n <= |results| == |c.msgs|
    ensures r.Some? ==> r.value < n && c.OrderKey(r.value) == key && !Acked(results[r.value])
    ensures forall k :: (if r.Some? then r.value + 1 else 0) <= k < n && c.OrderKey(k) == key ==> Acked(results[k])
  {
    if n == 0 then None
    else if c.OrderKey(n - 1) == key && !Acked(results[n - 1]) then Some(n - 1)
    else LastFailed(c, results, key, n - 1)
  }

  /** A non-acked result names the previous non-acked message of its order key. */
  function Linked(c: Ctx, results: seq<Result>, i: nat): Result
    requires i < |results| == |c.msgs|
  {
    var previous := LastFailed(c, results, c.OrderKey(i), i);
    if !Acked(results[i]) && previous.Some? then results[i].(after := previous.value + 1) else results[i]
  }

  function LinkAll(c: Ctx, results: seq<Result>): (r: seq<Result>)
    requires |results| == |c.msgs|
    ensures |r| == |results|
  {
    seq(|results|, i requires 0 <= i < |results| => Linked(c, results, i))
  }
}
