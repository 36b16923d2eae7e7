/** The coordinator's fan-out to its nodes (packml_interface.hpp): send a
    request to every registered client whose service is up, then poll the
    futures until every reply is in, judging each reply with a handler. The
    registry is a `std::map` from client name to client, so every walk over it
    goes in ascending name order. */
module Fanout {

  import opened Basics
  import opened StdMap

  /** How one registered client behaves for one request: whether its service
      answers `wait_for_service`, the `success` flag of its reply (which is what
      both handlers return), and the polling pass in which its future becomes
      ready. */
  datatype NodeReply = NodeReply(reachable: bool, verdict: bool, readyAt: nat)

  predicate Reachable(r: NodeReply) {
    r.reachable
  }

  /** `call_all_clients`: a future for each client whose service is available. */
  function CallAllClients(clients: seq<Entry<NodeReply>>): (futures: seq<Entry<NodeReply>>)
    requires Sorted(clients)
    ensures Sorted(futures) && |futures| <= |clients|
    ensures forall i :: 0 <= i < |futures| ==> futures[i].value.reachable
  {
    Filter(clients, Reachable)
  }

  /** The futures are keyed by exactly the reachable clients, and there are as
      many as clients only when every client is reachable. */
  lemma CallAllClientsKeys(clients: seq<Entry<NodeReply>>, name: string)
    requires Sorted(clients)
    ensures Get(CallAllClients(clients), name).Some? <==>
      Get(clients, name).Some? && Get(clients, name).value.reachable
    ensures Get(CallAllClients(clients), name).Some? ==> Get(CallAllClients(clients), name) == Get(clients, name)
    ensures |CallAllClients(clients)| == |clients| <==> forall i :: 0 <= i < |clients| ==> clients[i].value.reachable
  {
    FilterKeeps(clients, Reachable, name);
  }

  // ---- polling ----

  /** One polling pass over the futures in key order, starting from `success`:
      each reply that becomes ready in this pass overwrites it. */
  function ReadPass(fs: seq<Entry<NodeReply>>, pass: nat, success: bool): bool {
    if |fs| == 0 then success
    else
      var before := ReadPass(fs[..|fs| - 1], pass, success);
      if fs[|fs| - 1].value.readyAt == pass then fs[|fs| - 1].value.verdict else before
  }

  /** Some future is still not ready after pass `pass`. */
  predicate AnyWaiting(fs: seq<Entry<NodeReply>>, pass: nat) {
    exists i :: 0 <= i < |fs| && fs[i].value.readyAt > pass
  }

  function MaxReady(fs: seq<Entry<NodeReply>>): (n: nat)
    ensures forall i :: 0 <= i < |fs| ==> fs[i].value.readyAt <= n
  {
    if |fs| == 0 then 0
    else
      var n := MaxReady(fs[1..]);
      assert forall i :: 1 <= i < |fs| ==> fs[i] == fs[1..][i - 1];
      if fs[0].value.readyAt > n then fs[0].value.readyAt else n
  }

  /** The polling loop from pass `pass` on, entered with `success` true: it stops
      once nothing is waiting or the pass ended on a rejection. */
  function PollFrom(fs: seq<Entry<NodeReply>>, pass: nat): bool
    decreases MaxReady(fs) - pass
  {
    var success := ReadPass(fs, pass, true);
    if !AnyWaiting(fs, pass) || !success then success else PollFrom(fs, pass + 1)
  }

  /** `wait_all_futures` as written: no futures, or fewer futures than clients,
      is a failure; otherwise the verdict of the polling loop. */
  function GatherAsWritten(registrySize: nat, fs: seq<Entry<NodeReply>>): bool {
    if |fs| == 0 then false
    else if |fs| != registrySize then false
    else PollFrom(fs, 0)
  }

  /** What the gather is meant to report: a future from every client, and every
      reply an acceptance. */
  predicate GatherAll(registrySize: nat, fs: seq<Entry<NodeReply>>) {
    |fs| > 0 && |fs| == registrySize && forall i :: 0 <= i < |fs| ==> fs[i].value.verdict
  }

  /** `wait_all_futures` as written, with its polling loop: `valid` records which
      futures have not been read yet (`get` invalidates a future). */
  method WaitAllFuturesAsWritten(registrySize: nat, futures: seq<Entry<NodeReply>>) returns (success: bool)
    ensures success == GatherAsWritten(registrySize, futures)
  {
    if |futures| == 0 {
      return false;
    } else if |futures| != registrySize {
      return false;
    }
    success := true;
    var done := false;
    var pass: nat := 0;
    var valid := seq(|futures|, _ => true);
    while !done && success
      invariant |valid| == |futures|
      invariant pass <= MaxReady(futures) + 1
      invariant !done && success ==>
        && pass <= MaxReady(futures)
        && (forall j :: 0 <= j < |futures| ==> (valid[j] <==> futures[j].value.readyAt >= pass))
        && PollFrom(futures, pass) == PollFrom(futures, 0)
      invariant done || !success ==> success == PollFrom(futures, 0)
      decreases MaxReady(futures) + 1 - pass
    {
      var anyWaiting;
      success, anyWaiting, valid := PassAsWritten(futures, pass, valid);
      done := !anyWaiting;
      pass := pass + 1;
    }
  }

  /** One polling pass of the as-written loop, over futures not read before
      `pass`: each one ready now is read and overwrites `success`. */
  method PassAsWritten(futures: seq<Entry<NodeReply>>, pass: nat, valid: seq<bool>)
    returns (success: bool, anyWaiting: bool, valid': seq<bool>)
    requires |valid| == |futures|
    requires forall j :: 0 <= j < |futures| ==> (valid[j] <==> futures[j].value.readyAt >= pass)
    ensures success == ReadPass(futures, pass, true)
    ensures anyWaiting <==> AnyWaiting(futures, pass)
    ensures |valid'| == |futures|
    ensures forall j :: 0 <= j < |futures| ==> (valid'[j] <==> futures[j].value.readyAt > pass)
  {
    success := true;
    anyWaiting := false;
    valid' := valid;
    var i := 0;
    while i < |futures|
      invariant 0 <= i <= |futures| && |valid'| == |futures|
      invariant success == ReadPass(futures[..i], pass, true)
      invariant anyWaiting <==> exists j :: 0 <= j < i && futures[j].value.readyAt > pass
      invariant forall j :: 0 <= j < |futures| ==>
        (valid'[j] <==> futures[j].value.readyAt > pass || (j >= i && futures[j].value.readyAt == pass))
    {
      if valid'[i] {
        if futures[i].value.readyAt <= pass {
          success := futures[i].value.verdict;
          valid' := valid'[i := false];
        } else {
          anyWaiting := true;
        }
      }
      assert futures[..i + 1][..i] == futures[..i];
      i := i + 1;
    }
    assert futures[..i] == futures;
  }

  /** Whether the future at position `j` has been read once the pass `pass`
      has visited the first `i` futures. */
  predicate ReadBy(f: Entry<NodeReply>, j: int, pass: nat, i: int) {
    f.value.readyAt < pass || (f.value.readyAt == pass && j < i)
  }

  /** `wait_all_futures` corrected: each verdict is conjoined with the ones read
      before it, so a single rejection fails the gather. */
  method WaitAllFutures(registrySize: nat, futures: seq<Entry<NodeReply>>) returns (success: bool)
    ensures success == GatherAll(registrySize, futures)
  {
    if |futures| == 0 {
      return false;
    } else if |futures| != registrySize {
      return false;
    }
    success := true;
    var done := false;
    var pass: nat := 0;
    var valid := seq(|futures|, _ => true);
    while !done && success
      invariant |valid| == |futures|
      invariant pass <= MaxReady(futures) + 1
      invariant forall j :: 0 <= j < |futures| ==> (valid[j] <==> futures[j].value.readyAt >= pass)
      invariant success <==> forall j :: 0 <= j < |futures| && futures[j].value.readyAt < pass ==> futures[j].value.verdict
      invariant !done ==> pass <= MaxReady(futures)
      invariant done ==> pass > 0 && !AnyWaiting(futures, pass - 1)
      decreases MaxReady(futures) + 1 - pass
    {
      var anyWaiting;
      success, anyWaiting, valid := Pass(futures, pass, valid, success);
      done := !anyWaiting;
      pass := pass + 1;
    }
  }

  /** One polling pass of the corrected loop: each future ready now is read
      and conjoined into `success`. */
  method Pass(futures: seq<Entry<NodeReply>>, pass: nat, valid: seq<bool>, success: bool)
    returns (success': bool, anyWaiting: bool, valid': seq<bool>)
    requires |valid| == |futures|
    requires forall j :: 0 <= j < |futures| ==> (valid[j] <==> futures[j].value.readyAt >= pass)
    requires success <==> forall j :: 0 <= j < |futures| && futures[j].value.readyAt < pass ==> futures[j].value.verdict
    ensures success' <==> forall j :: 0 <= j < |futures| && futures[j].value.readyAt <= pass ==> futures[j].value.verdict
    ensures anyWaiting <==> AnyWaiting(futures, pass)
    ensures |valid'| == |futures|
    ensures forall j :: 0 <= j < |futures| ==> (valid'[j] <==> futures[j].value.readyAt > pass)
  {
    success' := success;
    anyWaiting := false;
    valid' := valid;
    var i := 0;
    while i < |futures|
      invariant 0 <= i <= |futures| && |valid'| == |futures|
      invariant success' <==> forall j :: 0 <= j < |futures| && ReadBy(futures[j], j, pass, i) ==> futures[j].value.verdict
      invariant anyWaiting <==> exists j :: 0 <= j < i && futures[j].value.readyAt > pass
      invariant forall j :: 0 <= j < |futures| ==>
        (valid'[j] <==> futures[j].value.readyAt > pass || (j >= i && futures[j].value.readyAt == pass))
    {
      if valid'[i] {
        if futures[i].value.readyAt <= pass {
          success' := success' && futures[i].value.verdict;
          valid' := valid'[i := false];
        } else {
          anyWaiting := true;
        }
      }
      i := i + 1;
    }
  }

  // ---- what the as-written gather does report ----

  lemma {:induction false} ReadPassUnanimous(fs: seq<Entry<NodeReply>>, pass: nat)
    requires forall i :: 0 <= i < |fs| ==> fs[i].value.verdict
    ensures ReadPass(fs, pass, true)
  {
    if |fs| > 0 {
      ReadPassUnanimous(fs[..|fs| - 1], pass);
    }
  }

  lemma {:induction false} PollUnanimous(fs: seq<Entry<NodeReply>>, pass: nat)
    requires forall i :: 0 <= i < |fs| ==> fs[i].value.verdict
    ensures PollFrom(fs, pass)
    decreases MaxReady(fs) - pass
  {
    ReadPassUnanimous(fs, pass);
    if AnyWaiting(fs, pass) {
      PollUnanimous(fs, pass + 1);
    }
  }

  /** Whatever the gather is meant to accept, the as-written gather accepts too. */
  lemma GatherAllAccepted(registrySize: nat, fs: seq<Entry<NodeReply>>)
    requires GatherAll(registrySize, fs)
    ensures GatherAsWritten(registrySize, fs)
  {
    PollUnanimous(fs, 0);
  }

  /** Two replies ready in the same pass, the first (by name) rejecting and the
      second accepting: the as-written gather reports success. */
  lemma LaterAcceptMasksRejection()
    ensures var fs := [Entry("a", NodeReply(true, false, 0)), Entry("b", NodeReply(true, true, 0))];
      Sorted(fs) && GatherAsWritten(2, fs) && !GatherAll(2, fs)
  {
    var fs := [Entry("a", NodeReply(true, false, 0)), Entry("b", NodeReply(true, true, 0))];
    assert fs[..1] == [fs[0]];
    assert ReadPass(fs[..1], 0, true) == false;
    assert ReadPass(fs, 0, true);
    assert !AnyWaiting(fs, 0);
  }

  /** At most one reply becomes ready in each pass. */
  predicate ReadyPassesDistinct(fs: seq<Entry<NodeReply>>) {
    forall i, j :: 0 <= i < j < |fs| ==> fs[i].value.readyAt != fs[j].value.readyAt
  }

  lemma {:induction false} ReadPassSingle(fs: seq<Entry<NodeReply>>, pass: nat)
    requires ReadyPassesDistinct(fs)
    ensures ReadPass(fs, pass, true) <==>
      forall i :: 0 <= i < |fs| && fs[i].value.readyAt == pass ==> fs[i].value.verdict
  {
    if |fs| > 0 {
      var init := fs[..|fs| - 1];
      assert ReadyPassesDistinct(init);
      ReadPassSingle(init, pass);
      assert forall i :: 0 <= i < |init| ==> init[i] == fs[i];
    }
  }

  lemma {:induction false} PollSingle(fs: seq<Entry<NodeReply>>, pass: nat)
    requires ReadyPassesDistinct(fs)
    ensures PollFrom(fs, pass) <==>
      forall i :: 0 <= i < |fs| && fs[i].value.readyAt >= pass ==> fs[i].value.verdict
    decreases MaxReady(fs) - pass
  {
    ReadPassSingle(fs, pass);
    if AnyWaiting(fs, pass) && ReadPass(fs, pass, true) {
      PollSingle(fs, pass + 1);
    }
  }

  /** When no two replies become ready in the same pass, the as-written gather
      reports exactly what it is meant to. */
  lemma AsWrittenAgreesWhenReadyPassesDistinct(registrySize: nat, fs: seq<Entry<NodeReply>>)
    requires ReadyPassesDistinct(fs)
    ensures GatherAsWritten(registrySize, fs) == GatherAll(registrySize, fs)
  {
    if |fs| > 0 && |fs| == registrySize {
      PollSingle(fs, 0);
    }
  }

  /** The corrected gather after a fan-out succeeds exactly when every
      registered client is reachable and accepts. */
  lemma GatherAllMeansEveryClientAccepts(clients: seq<Entry<NodeReply>>)
    requires Sorted(clients)
    ensures GatherAll(|clients|, CallAllClients(clients)) <==>
      |clients| > 0 && forall i :: 0 <= i < |clients| ==> clients[i].value.reachable && clients[i].value.verdict
  {
    var fs := CallAllClients(clients);
    CallAllClientsKeys(clients, "");
    if GatherAll(|clients|, fs) {
      forall i | 0 <= i < |clients|
        ensures clients[i].value.verdict
      {
        GetAt(clients, i);
        CallAllClientsKeys(clients, clients[i].key);
        GetFound(fs, clients[i].key);
        var j :| 0 <= j < |fs| && fs[j] == Entry(clients[i].key, Get(fs, clients[i].key).value);
      }
    }
    if |clients| > 0 && forall i :: 0 <= i < |clients| ==> clients[i].value.reachable && clients[i].value.verdict {
      forall i | 0 <= i < |fs|
        ensures fs[i].value.verdict
      {
        var j :| 0 <= j < |clients| && fs[i] == clients[j];
      }
    }
  }
}
