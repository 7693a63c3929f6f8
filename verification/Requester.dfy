/** How a batch of job types and a sample travel in a REQUEST, and how the answer is read (comms/requester.cpp). */
module Requesters {
  import opened Text
  import opened Messages

  function Printed(types: seq<nat>): (r: seq<string>)
    ensures |r| == |types|
  {
    seq(|types|, i requires 0 <= i < |types| => ToString(types[i]))
  }

  function SubmitMessage(id: nat, jobTypes: seq<nat>, data: seq<string>): Message
    requires jobTypes != [] && data != []
  {
    Message([ToString(id)], REQUEST, [Join(Printed(jobTypes), ':'), Join(data, ':')])
  }

  /** Requester::submit. The components of the sample come already printed. */
  method Submit(id: nat, jobTypes: seq<nat>, data: seq<string>) returns (m: Message)
    requires jobTypes != [] && data != []
    ensures m == SubmitMessage(id, jobTypes, data)
  {
    var jobTypesStr := [];
    for i := 0 to |jobTypes|
      invariant jobTypesStr == Printed(jobTypes)[..i]
    {
      jobTypesStr := jobTypesStr + [ToString(jobTypes[i])];
    }
    assert jobTypesStr == Printed(jobTypes);
    GlueIsJoin(jobTypesStr, ':');
    GlueIsJoin(data, ':');
    var jtstring := JoinStr(jobTypesStr, ":");
    var dataString := JoinStr(data, ":");
    m := Message([ToString(id)], REQUEST, [jtstring, dataString]);
  }

  /** Requester::retrieve, with the results left as printed. The source throws or reads outside the vector when there is
      no address or no number in it. */
  method Retrieve(r: Message) returns (id: nat, results: seq<string>)
    requires r.address != [] && Digits(r.address[0]) != ""
    ensures id == Number(r.address[0]) && results == r.data
  {
    id := Number(r.address[0]);
    results := [];
    for i := 0 to |r.data|
      invariant results == r.data[..i]
    {
      results := results + [r.data[i]];
    }
  }

  // ------------------------------------------------ reading the job types back

  ghost predicate AllParse(strs: set<string>) { forall x | x in strs :: StoI(x).Some? }

  /** std::transform of std::stoi from the set of strings into a set of integers. */
  function ParsedTypes(strs: set<string>): set<nat>
    requires AllParse(strs)
  {
    set x | x in strs :: StoI(x).value
  }

  function TypeStrings(message: Message): set<string>
    requires message.data != []
  {
    Elements(Split(message.data[0], ':'))
  }

  lemma PrintedHas(types: seq<nat>)
    ensures forall t | t in types :: ToString(t) in Printed(types)
    ensures forall s | s in Printed(types) :: exists t :: t in types && s == ToString(t)
    ensures DelimFree(Printed(types), ':')
    ensures "" !in Printed(types)
  {
    forall t | t in types
      ensures ToString(t) in Printed(types)
    {
      var i :| 0 <= i < |types| && types[i] == t;
      assert Printed(types)[i] == ToString(t);
    }
    forall s | s in Printed(types)
      ensures (exists t :: t in types && s == ToString(t)) && ':' !in s && s != ""
    {
      var i :| 0 <= i < |types| && Printed(types)[i] == s;
      ToStringColonFree(types[i]);
      ToStringValue(types[i]);
      assert types[i] in types && s == ToString(types[i]);
    }
  }

  lemma SplitTypes(id: nat, jobTypes: seq<nat>, data: seq<string>)
    requires jobTypes != [] && data != []
    ensures TypeStrings(SubmitMessage(id, jobTypes, data)) == Elements(Printed(jobTypes))
  {
    PrintedHas(jobTypes);
    assert Printed(jobTypes)[|jobTypes| - 1] in Printed(jobTypes);
    JoinSplitRoundTrip(Printed(jobTypes), ':');
  }

  /** Every submitted vector of job types is read back as the set of those types, and reading it back fails exactly when
      one of them does not fit an int. */
  lemma TypesParseIff(id: nat, jobTypes: seq<nat>, data: seq<string>)
    requires jobTypes != [] && data != []
    ensures AllParse(TypeStrings(SubmitMessage(id, jobTypes, data))) <==> forall t | t in jobTypes :: t <= INT_MAX
  {
    SplitTypes(id, jobTypes, data);
    PrintedHas(jobTypes);
    forall t | t in jobTypes
      ensures ToString(t) in Elements(Printed(jobTypes))
      ensures StoI(ToString(t)).Some? <==> t <= INT_MAX
    {
      StoIRoundTrip(t);
    }
  }

  lemma ParsedPrinted(jobTypes: seq<nat>, strs: set<string>)
    requires strs == Elements(Printed(jobTypes)) && AllParse(strs)
    ensures ParsedTypes(strs) == Elements(jobTypes)
  {
    PrintedHas(jobTypes);
    forall x | x in strs
      ensures StoI(x).value in jobTypes
    {
      var t :| t in jobTypes && x == ToString(t);
      StoIRoundTrip(t);
    }
    forall t | t in jobTypes
      ensures t in ParsedTypes(strs)
    {
      StoIRoundTrip(t);
      assert ToString(t) in strs;
    }
  }

  lemma TypesRoundTrip(id: nat, jobTypes: seq<nat>, data: seq<string>)
    requires jobTypes != [] && data != []
    requires forall t | t in jobTypes :: t <= INT_MAX
    ensures var strs := TypeStrings(SubmitMessage(id, jobTypes, data));
            AllParse(strs) && ParsedTypes(strs) == Elements(jobTypes) && |strs| == |ParsedTypes(strs)|
  {
    TypesParseIff(id, jobTypes, data);
    SplitTypes(id, jobTypes, data);
    var strs := Elements(Printed(jobTypes));
    ParsedPrinted(jobTypes, strs);
    PrintedHas(jobTypes);
    forall s | s in strs
      ensures exists t :: t in Elements(jobTypes) && s == ToString(t)
    {
      var t :| t in jobTypes && s == ToString(t);
      assert t in Elements(jobTypes);
    }
    PrintedCount(strs, Elements(jobTypes));
  }

  /** Printing is canonical: a set of printed numbers is as large as the set of the numbers. */
  lemma {:induction false} PrintedCount(strs: set<string>, types: set<nat>)
    requires forall s | s in strs :: exists t :: t in types && s == ToString(t)
    requires forall t | t in types :: ToString(t) in strs
    ensures |strs| == |types|
    decreases types
  {
    if types == {} {
      assert strs == {};
    } else {
      var t :| t in types;
      forall s | s in strs - {ToString(t)}
        ensures exists u :: u in types - {t} && s == ToString(u)
      {
        var u :| u in types && s == ToString(u);
        assert u in types - {t};
      }
      forall u | u in types - {t}
        ensures ToString(u) in strs - {ToString(t)}
      {
        ToStringInjective(u, t);
      }
      PrintedCount(strs - {ToString(t)}, types - {t});
    }
  }

  /** The batch id that an answer carries back is the one submitted. */
  lemma BatchIdRoundTrip(id: nat, jobTypes: seq<nat>, data: seq<string>, identity: string, results: seq<string>)
    requires jobTypes != [] && data != [] && identity != ""
    ensures var request := SubmitMessage(id, jobTypes, data);
            var reply := RouterOut(Message(RouterIn(identity, request).address, RESULT, results));
            reply.0 == identity && Number(reply.1.address[0]) == id && Digits(reply.1.address[0]) != ""
  {
    NumberOfToString(id);
  }
}
