/** The invariant on the requesters' side: every batch a requester waits for is in exactly one place, on its way to the
    delegator, pending there, or answered and on its way back with exactly the expected results. */
module Batches {
  import opened Text
  import opened Messages
  import opened Ordering
  import opened Requesters
  import opened DelegatorStates
  import opened Accounting
  import opened Protocol

  /** The address of a batch as the delegator sees it, and the name it keeps the request under. */
  function AddressOf(k: Key): Address { [ToString(k.1), k.0] }

  function NameOf(k: Key): string { Join(AddressOf(k), ':') }

  predicate ProperKey(k: Key) { Printable([k.0]) }

  lemma NamesDiffer(a: Key, b: Key)
    requires ProperKey(a) && ProperKey(b)
    ensures NameOf(a) == NameOf(b) ==> a == b
  {
    assert a.0 in [a.0] && b.0 in [b.0];
    ToStringColonFree(a.1);
    ToStringColonFree(b.1);
    JoinInjective(AddressOf(a), AddressOf(b), ':');
    ToStringInjective(a.1, b.1);
    assert NameOf(a) == NameOf(b) ==> AddressOf(a)[0] == AddressOf(b)[0] && AddressOf(a)[1] == AddressOf(b)[1];
  }

  /** How many messages on a link belong to a batch. */
  function KeyCount(link: seq<(string, Message)>, k: Key): nat {
    if link == [] then 0
    else (if link[0].1.address != [] && KeyOf(link[0]) == k then 1 else 0) + KeyCount(link[1..], k)
  }

  lemma {:induction false} KeyCountAppend(a: seq<(string, Message)>, b: seq<(string, Message)>, k: Key)
    ensures KeyCount(a + b, k) == KeyCount(a, k) + KeyCount(b, k)
  {
    if a == [] {
      assert a + b == b;
    } else {
      assert (a + b)[1..] == a[1..] + b;
      KeyCountAppend(a[1..], b, k);
    }
  }

  lemma KeyCountOne(e: (string, Message), k: Key)
    ensures KeyCount([e], k) == if e.1.address != [] && KeyOf(e) == k then 1 else 0
  {
  }

  lemma KeyCountWithout(link: seq<(string, Message)>, i: nat, k: Key)
    requires i < |link|
    ensures KeyCount(link, k)
            == KeyCount(Without(link, i), k) + if link[i].1.address != [] && KeyOf(link[i]) == k then 1 else 0
  {
    assert link == (link[..i] + [link[i]]) + link[i + 1..];
    KeyCountAppend(link[..i] + [link[i]], link[i + 1..], k);
    KeyCountAppend(link[..i], [link[i]], k);
    KeyCountOne(link[i], k);
    KeyCountAppend(link[..i], link[i + 1..], k);
  }

  // ------------------------------------------------------------- the invariant

  ghost predicate Asking(asked: map<Key, Batch>, e: (string, Message)) {
    && e.1.address != [] && KeyOf(e) in asked
    && asked[KeyOf(e)].types != [] && asked[KeyOf(e)].sample != []
    && e == (KeyOf(e).0, SubmitMessage(KeyOf(e).1, asked[KeyOf(e)].types, asked[KeyOf(e)].sample))
  }

  ghost predicate Answering(asked: map<Key, Batch>, e: (string, Message), eval: Eval) {
    && e.1.address != [] && KeyOf(e) in asked
    && e == (KeyOf(e).0, Message([ToString(KeyOf(e).1)], RESULT, MapTypes(asked[KeyOf(e)], eval)))
  }

  ghost predicate Pending(asked: map<Key, Batch>, id: string, r: Request, k: Key) {
    && k in asked && id == NameOf(k) && r.address == AddressOf(k)
    && asked[k].sample != []
    && r.jobTypes == Elements(asked[k].types) && r.data == Join(asked[k].sample, ':')
  }

  function Places(reqIn: seq<(string, Message)>, reqOut: seq<(string, Message)>, requests: map<string, Request>, k: Key): nat {
    KeyCount(reqIn, k) + (if NameOf(k) in requests then 1 else 0) + KeyCount(reqOut, k)
  }

  ghost predicate AllSubmittable(asked: map<Key, Batch>) { forall k | k in asked :: Submittable(k, asked[k]) }

  ghost predicate OnePlace(asked: map<Key, Batch>, reqIn: seq<(string, Message)>, reqOut: seq<(string, Message)>,
                           requests: map<string, Request>) {
    forall k | ProperKey(k) :: Places(reqIn, reqOut, requests, k) == if k in asked then 1 else 0
  }

  ghost predicate AllPending(asked: map<Key, Batch>, requests: map<string, Request>) {
    forall id | id in requests :: exists k :: Pending(asked, id, requests[id], k)
  }

  ghost predicate BatchInv(asked: map<Key, Batch>, reqIn: seq<(string, Message)>, reqOut: seq<(string, Message)>,
                           requests: map<string, Request>, eval: Eval) {
    && AllSubmittable(asked)
    && (forall e | e in reqIn :: Asking(asked, e))
    && (forall e | e in reqOut :: Answering(asked, e, eval))
    && AllPending(asked, requests)
    && OnePlace(asked, reqIn, reqOut, requests)
  }

  // ------------------------------------------------------------------- Submit

  lemma SubmitKeeps(asked: map<Key, Batch>, reqIn: seq<(string, Message)>, reqOut: seq<(string, Message)>,
                    requests: map<string, Request>, k: Key, b: Batch, eval: Eval)
    requires BatchInv(asked, reqIn, reqOut, requests, eval)
    requires k !in asked && Submittable(k, b)
    ensures BatchInv(asked[k := b], reqIn + [(k.0, SubmitMessage(k.1, b.types, b.sample))], reqOut, requests, eval)
  {
    var asked' := asked[k := b];
    var e := (k.0, SubmitMessage(k.1, b.types, b.sample));
    var reqIn' := reqIn + [e];
    NumberOfToString(k.1);
    assert KeyOf(e) == k;
    forall x | x in reqIn'
      ensures Asking(asked', x)
    {
      assert x in reqIn ==> Asking(asked, x);
    }
    forall x | x in reqOut
      ensures Answering(asked', x, eval)
    {
      assert Answering(asked, x, eval);
    }
    AskedMore(asked, requests, k, b);
    SubmittedPlaces(asked, reqIn, reqOut, requests, k, b, e);
    hide Asking, Answering, AllPending, OnePlace, Submittable;
  }

  lemma SubmittedPlaces(asked: map<Key, Batch>, reqIn: seq<(string, Message)>, reqOut: seq<(string, Message)>,
                        requests: map<string, Request>, k: Key, b: Batch, e: (string, Message))
    requires OnePlace(asked, reqIn, reqOut, requests) && k !in asked && e.1.address != [] && KeyOf(e) == k
    ensures OnePlace(asked[k := b], reqIn + [e], reqOut, requests)
  {
    forall q | ProperKey(q)
      ensures Places(reqIn + [e], reqOut, requests, q) == if q in asked[k := b] then 1 else 0
    {
      KeyCountAppend(reqIn, [e], q);
      KeyCountOne(e, q);
      assert Places(reqIn, reqOut, requests, q) == if q in asked then 1 else 0;
    }
  }

  lemma AskedMore(asked: map<Key, Batch>, requests: map<string, Request>, k: Key, b: Batch)
    requires AllPending(asked, requests) && k !in asked
    ensures AllPending(asked[k := b], requests)
  {
    var asked' := asked[k := b];
    forall id | id in requests
      ensures exists q :: Pending(asked', id, requests[id], q)
    {
      var q :| Pending(asked, id, requests[id], q);
      assert Pending(asked', id, requests[id], q);
    }
  }

  // ------------------------------------------------------------------ Request

  /** What the delegator reads of a request on its way. */
  lemma RequestRead(asked: map<Key, Batch>, e: (string, Message))
    requires AllSubmittable(asked) && Asking(asked, e)
    ensures var m := RouterIn(e.0, e.1);
            var b := asked[KeyOf(e)];
            && |m.data| >= 2 && m.address == AddressOf(KeyOf(e)) && m.data[1] == Join(b.sample, ':')
            && AllParse(TypeStrings(m)) && ParsedTypes(TypeStrings(m)) == Elements(b.types)
            && |TypeStrings(m)| == |ParsedTypes(TypeStrings(m))|
  {
    var b := asked[KeyOf(e)];
    TypesRoundTrip(KeyOf(e).1, b.types, b.sample);
  }

  /** A request that arrives is never pending already. */
  lemma RequestIsNew(asked: map<Key, Batch>, reqIn: seq<(string, Message)>, reqOut: seq<(string, Message)>,
                     requests: map<string, Request>, i: nat, eval: Eval)
    requires BatchInv(asked, reqIn, reqOut, requests, eval) && i < |reqIn|
    ensures Asking(asked, reqIn[i]) && ProperKey(KeyOf(reqIn[i])) && NameOf(KeyOf(reqIn[i])) !in requests
  {
    assert reqIn[i] in reqIn && Asking(asked, reqIn[i]);
    var k := KeyOf(reqIn[i]);
    assert Submittable(k, asked[k]);
    KeyCountWithout(reqIn, i, k);
    assert Places(reqIn, reqOut, requests, k) == 1;
  }

  lemma RequestBatches(asked: map<Key, Batch>, reqIn: seq<(string, Message)>, reqOut: seq<(string, Message)>,
                       requests: map<string, Request>, i: nat, r: Request, eval: Eval)
    requires BatchInv(asked, reqIn, reqOut, requests, eval) && i < |reqIn|
    requires Asking(asked, reqIn[i])
    requires Pending(asked, NameOf(KeyOf(reqIn[i])), r, KeyOf(reqIn[i]))
    ensures BatchInv(asked, Without(reqIn, i), reqOut, requests[NameOf(KeyOf(reqIn[i])) := r], eval)
  {
    var k := KeyOf(reqIn[i]);
    var requests' := requests[NameOf(k) := r];
    RequestIsNew(asked, reqIn, reqOut, requests, i, eval);
    forall id | id in requests'
      ensures exists q :: Pending(asked, id, requests'[id], q)
    {
      if id == NameOf(k) {
        assert Pending(asked, id, requests'[id], k);
      } else {
        var q :| Pending(asked, id, requests[id], q);
        assert Pending(asked, id, requests'[id], q);
      }
    }
    forall q | ProperKey(q)
      ensures Places(Without(reqIn, i), reqOut, requests', q) == if q in asked then 1 else 0
    {
      KeyCountWithout(reqIn, i, q);
      NamesDiffer(q, k);
      assert Places(reqIn, reqOut, requests, q) == if q in asked then 1 else 0;
    }
    hide Asking, Answering, AllPending, OnePlace;
    assert forall e | e in Without(reqIn, i) :: e in reqIn;
  }

  // ------------------------------------------------------------------- Result

  lemma ExpectedIsMap(b: Batch, eval: Eval)
    requires Printable(b.sample)
    ensures Expected(Elements(b.types), Join(b.sample, ':'), OnData(eval)) == MapTypes(b, eval)
  {
    assert b.sample[|b.sample| - 1] in b.sample;
    JoinSplitRoundTrip(b.sample, ':');
  }

  /** The answer to a pending request, put on the way to its requester. */
  lemma AnswerBatches(asked: map<Key, Batch>, reqIn: seq<(string, Message)>, reqOut: seq<(string, Message)>,
                      requests: map<string, Request>, id: string, eval: Eval)
    requires BatchInv(asked, reqIn, reqOut, requests, eval) && id in requests
    requires requests[id].address != []
    ensures var r := requests[id];
            var m := Message(r.address, RESULT, Expected(r.jobTypes, r.data, OnData(eval)));
            BatchInv(asked, reqIn, reqOut + [RouterOut(m)], requests - {id}, eval)
  {
    var r := requests[id];
    var k :| Pending(asked, id, r, k);
    assert Submittable(k, asked[k]);
    ExpectedIsMap(asked[k], eval);
    NumberOfToString(k.1);
    var e := RouterOut(Message(r.address, RESULT, Expected(r.jobTypes, r.data, OnData(eval))));
    assert e.1.address == [ToString(k.1)];
    assert KeyOf(e) == k && Answering(asked, e, eval);
    AnsweredPlaces(asked, reqIn, reqOut, requests, id, e, k);
    FewerPending(asked, requests, id);
    hide Asking, Answering, AllPending, OnePlace, AllSubmittable;
  }

  lemma FewerPending(asked: map<Key, Batch>, requests: map<string, Request>, id: string)
    requires AllPending(asked, requests)
    ensures AllPending(asked, requests - {id})
  {
    var requests' := requests - {id};
    forall n | n in requests'
      ensures exists q :: Pending(asked, n, requests'[n], q)
    {
      var q :| Pending(asked, n, requests[n], q);
      assert Pending(asked, n, requests'[n], q);
    }
  }

  lemma AnsweredPlaces(asked: map<Key, Batch>, reqIn: seq<(string, Message)>, reqOut: seq<(string, Message)>,
                       requests: map<string, Request>, id: string, e: (string, Message), k: Key)
    requires OnePlace(asked, reqIn, reqOut, requests) && ProperKey(k)
    requires id in requests && id == NameOf(k) && e.1.address != [] && KeyOf(e) == k
    ensures OnePlace(asked, reqIn, reqOut + [e], requests - {id})
  {
    forall q | ProperKey(q)
      ensures Places(reqIn, reqOut + [e], requests - {id}, q) == if q in asked then 1 else 0
    {
      KeyCountAppend(reqOut, [e], q);
      KeyCountOne(e, q);
      NamesDiffer(q, k);
      assert Places(reqIn, reqOut, requests, q) == if q in asked then 1 else 0;
    }
  }

  /** An answered slot changes neither address, types nor data of the request. */
  lemma ProgressBatches(asked: map<Key, Batch>, reqIn: seq<(string, Message)>, reqOut: seq<(string, Message)>,
                        requests: map<string, Request>, id: string, r: Request, eval: Eval)
    requires BatchInv(asked, reqIn, reqOut, requests, eval) && id in requests
    requires r.address == requests[id].address && r.jobTypes == requests[id].jobTypes && r.data == requests[id].data
    ensures BatchInv(asked, reqIn, reqOut, requests[id := r], eval)
  {
    var requests' := requests[id := r];
    forall n | n in requests'
      ensures exists q :: Pending(asked, n, requests'[n], q)
    {
      var q :| Pending(asked, n, requests[n], q);
      assert Pending(asked, n, requests'[n], q);
    }
    forall q | ProperKey(q)
      ensures Places(reqIn, reqOut, requests', q) == if q in asked then 1 else 0
    {
      assert Places(reqIn, reqOut, requests, q) == if q in asked then 1 else 0;
    }
  }

  // ----------------------------------------------------------------- Retrieve

  lemma RetrieveKeeps(asked: map<Key, Batch>, reqIn: seq<(string, Message)>, reqOut: seq<(string, Message)>,
                      requests: map<string, Request>, i: nat, eval: Eval)
    requires BatchInv(asked, reqIn, reqOut, requests, eval) && i < |reqOut|
    ensures Answering(asked, reqOut[i], eval)
    ensures BatchInv(asked - {KeyOf(reqOut[i])}, reqIn, Without(reqOut, i), requests, eval)
  {
    var e := reqOut[i];
    assert e in reqOut && Answering(asked, e, eval);
    var k := KeyOf(e);
    assert Submittable(k, asked[k]);
    var asked' := asked - {k};
    KeyCountWithout(reqOut, i, k);
    assert Places(reqIn, reqOut, requests, k) == 1;
    OthersUnanswered(asked, reqIn, requests, k);
    forall x | x in Without(reqOut, i)
      ensures Answering(asked', x, eval)
    {
      assert Answering(asked, x, eval);
      if KeyOf(x) == k {
        CountedIn(Without(reqOut, i), x, k);
      }
    }
    forall q | ProperKey(q)
      ensures Places(reqIn, Without(reqOut, i), requests, q) == if q in asked' then 1 else 0
    {
      KeyCountWithout(reqOut, i, q);
      assert Places(reqIn, reqOut, requests, q) == if q in asked then 1 else 0;
    }
  }

  lemma {:induction false} CountedIn(link: seq<(string, Message)>, e: (string, Message), k: Key)
    requires e in link && e.1.address != [] && KeyOf(e) == k
    ensures KeyCount(link, k) > 0
  {
    if link[0] != e {
      CountedIn(link[1..], e, k);
    }
  }

  lemma OthersUnanswered(asked: map<Key, Batch>, reqIn: seq<(string, Message)>, requests: map<string, Request>, k: Key)
    requires AllSubmittable(asked) && AllPending(asked, requests)
    requires forall e | e in reqIn :: Asking(asked, e)
    requires KeyCount(reqIn, k) == 0 && NameOf(k) !in requests
    ensures AllSubmittable(asked - {k}) && AllPending(asked - {k}, requests)
    ensures forall e | e in reqIn :: Asking(asked - {k}, e)
  {
    forall e | e in reqIn
      ensures Asking(asked - {k}, e)
    {
      assert Asking(asked, e);
      if KeyOf(e) == k {
        CountedIn(reqIn, e, k);
      }
    }
    forall id | id in requests
      ensures exists q :: Pending(asked - {k}, id, requests[id], q)
    {
      var q :| Pending(asked, id, requests[id], q);
      assert Pending(asked - {k}, id, requests[id], q);
    }
  }
}
