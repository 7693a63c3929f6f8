/** Messages and their multipart framing on a ZeroMQ socket (comms/messages.hpp, comms/socket.cpp). */
module Messages {
  import opened Text

  datatype Subject = HELLO | HEARTBEAT | REQUEST | JOB | RESULT | GOODBYE

  type Address = seq<string>

  datatype Message = Message(address: Address, subject: Subject, data: seq<string>)

  function Code(s: Subject): nat {
    match s
    case HELLO => 0
    case HEARTBEAT => 1
    case REQUEST => 2
    case JOB => 3
    case RESULT => 4
    case GOODBYE => 5
  }

  /** The cast from int to Subject; numbers that name no subject are kept apart as None. */
  function SubjectOf(code: nat): Option<Subject> {
    if code == 0 then Some(HELLO)
    else if code == 1 then Some(HEARTBEAT)
    else if code == 2 then Some(REQUEST)
    else if code == 3 then Some(JOB)
    else if code == 4 then Some(RESULT)
    else if code == 5 then Some(GOODBYE)
    else None
  }

  function Reverse<T>(s: seq<T>): (r: seq<T>)
    ensures |r| == |s|
  {
    if s == [] then [] else Reverse(s[1..]) + [s[0]]
  }

  lemma {:induction false} ReverseAt<T>(s: seq<T>, i: nat)
    requires i < |s|
    ensures Reverse(s)[i] == s[|s| - 1 - i]
  {
    if i < |s| - 1 {
      ReverseAt(s[1..], i);
    }
  }

  lemma ReverseTwice<T>(s: seq<T>)
    ensures Reverse(Reverse(s)) == s
  {
    forall i | 0 <= i < |s|
      ensures Reverse(Reverse(s))[i] == s[i]
    {
      ReverseAt(Reverse(s), i);
      ReverseAt(s, |s| - 1 - i);
    }
  }

  lemma ReverseAppend<T>(s: seq<T>, x: T)
    ensures Reverse(s + [x]) == [x] + Reverse(s)
  {
    forall i | 0 <= i < |s| + 1
      ensures Reverse(s + [x])[i] == ([x] + Reverse(s))[i]
    {
      ReverseAt(s + [x], i);
      if i > 0 {
        ReverseAt(s, i - 1);
      }
    }
  }

  /** The frames of a message: addresses outermost first, an empty delimiter, the subject number, the data. */
  function Frames(m: Message): seq<string> {
    Reverse(m.address) + [""] + [ToString(Code(m.subject))] + m.data
  }

  /** Socket::send, with the frames collected instead of handed to ZeroMQ. */
  method Send(m: Message) returns (frames: seq<string>)
    ensures frames == Frames(m)
  {
    frames := [];
    var it := |m.address|;
    while it != 0
      invariant 0 <= it <= |m.address|
      invariant frames == Reverse(m.address[it..])
    {
      it := it - 1;
      assert m.address[it..][1..] == m.address[it + 1..];
      frames := frames + [m.address[it]];
    }
    assert m.address[0..] == m.address;
    frames := frames + [""];
    var subject := ToString(Code(m.subject));
    if |m.data| > 0 {
      frames := frames + [subject];
      for i := 0 to |m.data| - 1
        invariant frames == Reverse(m.address) + [""] + [subject] + m.data[..i]
      {
        frames := frames + [m.data[i]];
      }
      frames := frames + [m.data[|m.data| - 1]];
    } else {
      frames := frames + [subject];
    }
  }

  datatype Received = Received(message: Message) | Blocked | BadSubject

  /** What a receiver makes of a complete multipart message: everything before the first empty frame is the address. */
  function Parse(frames: seq<string>, address: seq<string>): Received {
    if frames == [] then Blocked
    else if frames[0] != "" then Parse(frames[1..], address + [frames[0]])
    else if |frames| == 1 then Blocked
    else match StoI(frames[1])
         case None => BadSubject
         case Some(code) =>
           match SubjectOf(code)
           case None => BadSubject
           case Some(subject) => Received(Message(Reverse(address), subject, frames[2..]))
  }

  /** Socket::receive on the frames of one multipart message. Blocked: the frames run out where the source would wait
      for another one; BadSubject: the third frame is no subject number. */
  method Receive(frames: seq<string>) returns (r: Received)
    ensures r == Parse(frames, [])
  {
    var address := [];
    var next := 0;
    while next < |frames| && frames[next] != ""
      invariant 0 <= next <= |frames|
      invariant Parse(frames, []) == Parse(frames[next..], address)
    {
      assert frames[next..][1..] == frames[next + 1..];
      address := address + [frames[next]];
      next := next + 1;
    }
    if next == |frames| || next + 1 == |frames| {
      return Blocked;
    }
    address := Reverse(address);
    assert frames[next..][1] == frames[next + 1] && frames[next..][2..] == frames[next + 2..];
    match StoI(frames[next + 1]) {
      case None => return BadSubject;
      case Some(code) =>
        match SubjectOf(code) {
          case None => return BadSubject;
          case Some(subject) =>
            var data := [];
            for i := next + 2 to |frames|
              invariant data == frames[next + 2..i]
            {
              data := data + [frames[i]];
            }
            return Received(Message(address, subject, data));
        }
    }
  }

  lemma {:induction false} ParseAddress(prefix: seq<string>, rest: seq<string>, address: seq<string>)
    requires "" !in prefix
    ensures Parse(prefix + rest, address) == Parse(rest, address + prefix)
    decreases |prefix|
  {
    if prefix == [] {
      assert prefix + rest == rest && address + prefix == address;
    } else {
      assert (prefix + rest)[1..] == prefix[1..] + rest;
      assert (address + [prefix[0]]) + prefix[1..] == address + prefix;
      ParseAddress(prefix[1..], rest, address + [prefix[0]]);
    }
  }

  lemma ReverseHasSame<T>(s: seq<T>, x: T)
    ensures x in Reverse(s) <==> x in s
  {
  }

  lemma ParseDelimited(m: Message, tail: seq<string>)
    requires tail == [""] + [ToString(Code(m.subject))] + m.data
    ensures Parse(tail, Reverse(m.address)) == Received(m)
  {
    StoIRoundTrip(Code(m.subject));
    ReverseTwice(m.address);
    assert tail[2..] == m.data;
  }

  /** A message survives the wire, with any data frames, exactly when none of its address frames is empty. */
  lemma EnvelopeRoundTrip(m: Message)
    ensures Parse(Frames(m), []) == Received(m) <==> "" !in m.address
  {
    var tail := [""] + [ToString(Code(m.subject))] + m.data;
    assert Frames(m) == Reverse(m.address) + tail;
    ReverseHasSame(m.address, "");
    if "" !in m.address {
      ParseAddress(Reverse(m.address), tail, []);
      assert [] + Reverse(m.address) == Reverse(m.address);
      ParseDelimited(m, tail);
    } else {
      ParsedAddress(Frames(m), []);
    }
  }

  lemma {:induction false} ParsedAddress(frames: seq<string>, address: seq<string>)
    requires "" !in address
    ensures Parse(frames, address).Received? ==> "" !in Parse(frames, address).message.address
    decreases |frames|
  {
    if frames == [] {
    } else if frames[0] != "" {
      ParsedAddress(frames[1..], address + [frames[0]]);
    } else {
      ReverseHasSame(address, "");
    }
  }

  // -------------------------------------------------------- the ROUTER sockets

  /** A ROUTER socket puts the identity of the peer in front of the frames it receives. */
  function RouterInFrames(identity: string, frames: seq<string>): seq<string> { [identity] + frames }

  /** On the way out it takes the first frame as the identity of the peer to send the rest to. */
  function RouterOutFrames(frames: seq<string>): (string, seq<string>)
    requires frames != []
  {
    (frames[0], frames[1..])
  }

  /** What the code behind the ROUTER socket sees of a message from `identity`. */
  function RouterIn(identity: string, m: Message): Message {
    m.(address := m.address + [identity])
  }

  /** Who gets a message sent through the ROUTER socket, and what of it. */
  function RouterOut(m: Message): (string, Message)
    requires m.address != []
  {
    (m.address[|m.address| - 1], m.(address := m.address[..|m.address| - 1]))
  }

  lemma RouterInIsPrepend(identity: string, m: Message)
    ensures Frames(RouterIn(identity, m)) == RouterInFrames(identity, Frames(m))
  {
    ReverseAppend(m.address, identity);
  }

  lemma RouterOutIsStrip(m: Message)
    requires m.address != []
    ensures RouterOutFrames(Frames(m)).0 == RouterOut(m).0
    ensures RouterOutFrames(Frames(m)).1 == Frames(RouterOut(m).1)
  {
    var n := |m.address| - 1;
    assert m.address == m.address[..n] + [m.address[n]];
    ReverseAppend(m.address[..n], m.address[n]);
    var rest := [""] + [ToString(Code(m.subject))] + m.data;
    assert Frames(m) == [m.address[n]] + (Reverse(m.address[..n]) + rest);
  }

  /** Through a ROUTER hop and back: a reply to the address a request arrived with reaches the peer that asked, and
      what that peer reads carries the address it sent the request with. */
  lemma RouterHopRoundTrip(identity: string, request: Message, subject: Subject, payload: seq<string>)
    requires "" !in request.address && identity != ""
    ensures Parse(RouterInFrames(identity, Frames(request)), []) == Received(RouterIn(identity, request))
    ensures var reply := Message(RouterIn(identity, request).address, subject, payload);
            var (peer, frames) := RouterOutFrames(Frames(reply));
            peer == identity
            && Parse(frames, []) == Received(Message(request.address, subject, payload))
  {
    RouterInIsPrepend(identity, request);
    EnvelopeRoundTrip(RouterIn(identity, request));
    var reply := Message(RouterIn(identity, request).address, subject, payload);
    RouterOutIsStrip(reply);
    EnvelopeRoundTrip(Message(request.address, subject, payload));
    assert RouterOut(reply).1.address == request.address;
  }
}
