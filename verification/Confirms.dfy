/**
  Publisher confirms.  The client reads confirms from a channel without looking at delivery tags,
  so a confirm counts for the message just sent only if nothing else can be in the channel.
*/
module Confirms {

  type Msg = nat

  datatype Answer = Answer(tag: nat, ack: bool)

  /** An AMQP channel in confirm mode: what was sent (the index is the delivery tag), what the
      broker answered, and the answers the client has not read yet. */
  datatype Chan = Chan(sent: seq<Msg>, answered: map<nat, bool>, unread: seq<Answer>)

  const Fresh := Chan([], map[], [])

  predicate WellFormed(c: Chan) {
    && (forall t :: t in c.answered ==> t < |c.sent|)
    && (forall i :: 0 <= i < |c.unread| ==>
        c.unread[i].tag in c.answered && c.answered[c.unread[i].tag] == c.unread[i].ack)
  }

  /** Nothing sent earlier can still produce a confirm. */
  predicate Quiet(c: Chan) {
    c.unread == [] && forall t: nat :: t < |c.sent| ==> t in c.answered
  }

  function Sent(c: Chan, m: Msg): Chan {
    c.(sent := c.sent + [m])
  }

  /** The broker answers each message at most once. */
  predicate CanAnswer(c: Chan, a: Answer) {
    a.tag < |c.sent| && a.tag !in c.answered
  }

  function Answered(c: Chan, a: Answer): Chan {
    c.(answered := c.answered[a.tag := a.ack], unread := c.unread + [a])
  }

  predicate Script(c: Chan, answers: seq<Answer>)
    decreases |answers|
  {
    answers == [] || (CanAnswer(c, answers[0]) && Script(Answered(c, answers[0]), answers[1..]))
  }

  function After(c: Chan, answers: seq<Answer>): Chan
    requires Script(c, answers)
    decreases |answers|
  {
    if answers == [] then c else After(Answered(c, answers[0]), answers[1..])
  }

  /** Whatever the broker answers after `m` is sent, the first confirm read is the one for `m`. */
  ghost predicate Attributes(c: Chan, m: Msg) {
    forall answers: seq<Answer> :: Script(Sent(c, m), answers) ==>
      var d := After(Sent(c, m), answers);
      d.unread != [] ==> d.unread[0].tag == |c.sent|
  }

  lemma {:induction false} AfterKeepsHead(c: Chan, answers: seq<Answer>)
    requires Script(c, answers) && c.unread != []
    ensures After(c, answers).unread != [] && After(c, answers).unread[0] == c.unread[0]
    decreases |answers|
  {
    if answers != [] {
      AfterKeepsHead(Answered(c, answers[0]), answers[1..]);
    }
  }

  /** Confirms are attributed correctly exactly on a quiet channel. */
  lemma AttributesIffQuiet(c: Chan, m: Msg)
    requires WellFormed(c)
    ensures Attributes(c, m) <==> Quiet(c)
  {
    var s := Sent(c, m);
    if Quiet(c) {
      forall answers: seq<Answer> | Script(s, answers) && After(s, answers).unread != []
        ensures After(s, answers).unread[0].tag == |c.sent|
      {
        assert answers != [];
        AfterKeepsHead(Answered(s, answers[0]), answers[1..]);
      }
    } else if c.unread != [] {
      assert Script(s, []) && After(s, []).unread[0].tag in c.answered;
      assert !Attributes(c, m);
    } else {
      var t: nat :| t < |c.sent| && t !in c.answered;
      var late := [Answer(t, true)];
      assert Script(s, late) by {
        assert late[1..] == [];
      }
      assert After(s, late) == Answered(s, late[0]) by {
        assert late[1..] == [];
      }
      assert !Attributes(c, m);
    }
  }

  /** A channel kept after a confirm timed out: the late confirm of the first message would be taken
      for the second one's.  This is why a failed channel must be closed. */
  lemma TimedOutChannelMisattributes(first: Msg, second: Msg)
    ensures !Attributes(Sent(Fresh, first), second)
  {
    var c := Sent(Fresh, first);
    assert 0 < |c.sent| && 0 !in c.answered;
    AttributesIffQuiet(c, second);
  }

  lemma {:induction false} AfterIsWellFormed(c: Chan, answers: seq<Answer>)
    requires WellFormed(c) && Script(c, answers)
    ensures WellFormed(After(c, answers)) && After(c, answers).sent == c.sent
    ensures forall t :: t in c.answered ==>
              t in After(c, answers).answered && After(c, answers).answered[t] == c.answered[t]
    decreases |answers|
  {
    if answers != [] {
      AfterIsWellFormed(Answered(c, answers[0]), answers[1..]);
    }
  }

  /** On a quiet channel the broker has nothing to say; after one message it can answer only that. */
  lemma QuietScripts(c: Chan, m: Msg, answers: seq<Answer>)
    requires WellFormed(c) && Quiet(c)
    ensures Script(c, answers) ==> answers == []
    ensures Script(Sent(c, m), answers) ==> answers == [] || (|answers| == 1 && answers[0].tag == |c.sent|)
  {
    if Script(Sent(c, m), answers) && answers != [] {
      var d := Answered(Sent(c, m), answers[0]);
      assert Script(d, answers[1..]);
    }
  }

  // ---- RabbitPublisher --------------------------------------------------------------

  /** How one publish meets its environment: whether a new channel can be opened, whether the write
      succeeds or, if not, the message left all the same, what the broker answers before the wait is
      over, whether the channel drops, and whether waiting ends with a confirm at all rather than
      with a drop, the timeout or a cancelled context. */
  datatype Conditions = Conditions(opens: bool, writes: bool, leftAnyway: bool, answers: seq<Answer>, drops: bool,
                                   inTime: bool)

  /** The first confirm the client reads is an ack. */
  predicate Confirmed(c: Chan, m: Msg, k: Conditions)
    requires Script(Sent(c, m), k.answers)
  {
    var d := After(Sent(c, m), k.answers);
    k.inTime && d.unread != [] && d.unread[0].ack
  }

  /** What an open channel is after publishing `m`: the confirm that was waited for is read. */
  function AfterPublish(c: Chan, m: Msg, k: Conditions): Chan
    requires Script(Sent(c, m), k.answers)
  {
    if !k.writes then (if k.leftAnyway then Sent(c, m) else c)
    else
      var d := After(Sent(c, m), k.answers);
      if k.inTime && d.unread != [] then d.(unread := d.unread[1..]) else d
  }

  /** The last message sent is `m`, and the broker has acknowledged it. */
  predicate Acked(c: Chan, m: Msg) {
    && c.sent != [] && c.sent[|c.sent| - 1] == m
    && |c.sent| - 1 in c.answered && c.answered[|c.sent| - 1]
  }

  /** On a quiet channel success is exactly an ack of this very message, and the channel is quiet
      again. */
  lemma QuietPublish(c: Chan, m: Msg, k: Conditions)
    requires WellFormed(c) && Quiet(c) && Script(Sent(c, m), k.answers)
    ensures Confirmed(c, m, k) <==> k.inTime && k.answers == [Answer(|c.sent|, true)]
    ensures k.writes && Confirmed(c, m, k) ==>
              AfterPublish(c, m, k).sent == c.sent + [m] && Acked(AfterPublish(c, m, k), m) &&
                Quiet(AfterPublish(c, m, k))
  {
    QuietScripts(c, m, k.answers);
    AfterIsWellFormed(Sent(c, m), k.answers);
    if After(Sent(c, m), k.answers).unread != [] {
      OneAnswer(c, m, k.answers);
    } else {
      NoAnswer(c, m, k.answers);
    }
  }

  class ConfirmChannel {
    var open: bool
    var state: Chan

    constructor ()
      ensures open && state == Fresh
    {
      open, state := true, Fresh;
    }

    /** The broker's side: answers, early or late, and possibly a dropped channel. */
    method Environment(answers: seq<Answer>, drops: bool)
      requires Script(state, answers)
      modifies this
      ensures state == After(old(state), answers) && open == (old(open) && !drops)
    {
      for i := 0 to |answers|
        invariant Script(state, answers[i..]) && After(state, answers[i..]) == After(old(state), answers)
        invariant open == old(open)
      {
        assert answers[i..][1..] == answers[i + 1..];
        state := Answered(state, answers[i]);
      }
      if drops {
        open := false;
      }
    }

    /** True exactly if the channel is open, the write succeeds, and the first unread confirm that
        there is in time is an ack, of whatever message. */
    method PublishConfirmed(m: Msg, c: Conditions) returns (ok: bool)
      requires WellFormed(state) && Script(Sent(state, m), c.answers)
      modifies this
      ensures WellFormed(state) && open == (old(open) && !(c.writes && c.drops))
      ensures ok <==> old(open) && c.writes && Confirmed(old(state), m, c)
      ensures state == if !old(open) then old(state) else AfterPublish(old(state), m, c)
    {
      AfterIsWellFormed(Sent(state, m), c.answers);
      if !open {
        return false;
      }
      if !c.writes {
        if c.leftAnyway {
          state := Sent(state, m);
        }
        return false;
      }
      state := Sent(state, m);
      Environment(c.answers, c.drops);
      if c.inTime && state.unread != [] {
        var confirmation := state.unread[0];
        state := state.(unread := state.unread[1..]);
        return confirmation.ack;
      }
      return false;
    }

    method Close()
      modifies this`open
      ensures !open
    {
      open := false;
    }
  }

  lemma NoAnswer(c: Chan, m: Msg, answers: seq<Answer>)
    requires WellFormed(c) && Quiet(c) && Script(Sent(c, m), answers)
    ensures After(Sent(c, m), answers).unread == [] ==> answers == []
  {
    if answers != [] {
      AfterKeepsHead(Answered(Sent(c, m), answers[0]), answers[1..]);
    }
  }

  /** The one answer possible after one message on a quiet channel. */
  lemma OneAnswer(c: Chan, m: Msg, answers: seq<Answer>)
    requires WellFormed(c) && Quiet(c) && Script(Sent(c, m), answers) && After(Sent(c, m), answers).unread != []
    ensures |answers| == 1 && answers[0].tag == |c.sent|
    ensures After(Sent(c, m), answers) == Answered(Sent(c, m), answers[0])
  {
    QuietScripts(c, m, answers);
    assert answers == [answers[0]];
  }

  class RabbitPublisher {
    var pub: ConfirmChannel?

    /** Between calls a channel that is still in use is quiet. */
    ghost predicate Valid()
      reads this, pub
    {
      pub != null ==> WellFormed(pub.state) && Quiet(pub.state)
    }

    /** The channel a publish will use: the one in use, or a new one. */
    ghost function Channel(): Chan
      reads this, pub
    {
      if pub == null then Fresh else pub.state
    }

    constructor (opens: bool)
      ensures Valid() && (opens <==> pub != null) && (opens ==> fresh(pub) && pub.open && pub.state == Fresh)
    {
      pub := null;
      new;
      OpenLocked(opens);
    }

    method OpenLocked(opens: bool)
      requires pub == null
      modifies this
      ensures Valid() && (opens <==> pub != null) && (opens ==> fresh(pub) && pub.open && pub.state == Fresh)
    {
      if opens {
        pub := new ConfirmChannel();
      }
    }

    /** Between two calls the broker has nothing left to say on a channel in use; it can only drop. */
    method Idle(answers: seq<Answer>, drops: bool)
      requires Valid() && Script(Channel(), answers)
      modifies pub
      ensures Valid() && Channel() == old(Channel())
      ensures pub != null ==> answers == [] && pub.open == (old(pub.open) && !drops)
    {
      if pub != null {
        QuietScripts(pub.state, 0, answers);
        pub.Environment(answers, drops);
      }
    }

    /** Success exactly if a channel is open or can be opened, the write succeeds and the broker acks
        this very message in time; after any failure the channel is closed and forgotten, so that a
        late confirm has nowhere to arrive. */
    method Publish(m: Msg, c: Conditions) returns (ok: bool)
      requires Valid() && Script(Sent(Channel(), m), c.answers)
      modifies this, pub
      ensures Valid()
      ensures ok <==> (if old(pub) == null then c.opens else old(pub.open)) && c.writes && c.inTime &&
                      c.answers == [Answer(|old(Channel()).sent|, true)]
      ensures ok ==> pub != null && (old(pub) == null || pub == old(pub))
      ensures ok ==> Channel().sent == old(Channel()).sent + [m] && Acked(Channel(), m)
      ensures !ok ==> pub == null && (old(pub) != null ==> !old(pub).open)
    {
      if pub == null {
        OpenLocked(c.opens);
        if !c.opens {
          return false;
        }
      }
      QuietPublish(pub.state, m, c);
      ok := pub.PublishConfirmed(m, c);
      if !ok {
        pub.Close();
        pub := null;
      }
    }
  }

  // ---- RabbitBroker -----------------------------------------------------------------

  /** The broker's publishing side: no channel, or one that is open or not. */
  datatype Pub = NoChannel | Held(chan: Chan, open: bool)
  {
    predicate Sane() {
      Held? ==> WellFormed(chan)
    }

    /** On an open channel nothing sent earlier can still be confirmed. */
    predicate Trustworthy() {
      Held? && open ==> Quiet(chan)
    }
  }

  const NewChannel := Held(Fresh, true)

  /** One of the two attempts: how the publish goes, whether the caller has given up by then, and
      whether a new channel can be opened. */
  datatype Attempt = Attempt(conditions: Conditions, canceled: bool, reopens: bool)

  predicate CanPublish(p: Pub, m: Msg, k: Conditions) {
    p.Held? ==> Script(Sent(p.chan, m), k.answers)
  }

  predicate OnceOk(p: Pub, m: Msg, k: Conditions)
    requires CanPublish(p, m, k)
  {
    p.Held? && p.open && k.writes && Confirmed(p.chan, m, k)
  }

  function Once(p: Pub, m: Msg, k: Conditions): Pub
    requires CanPublish(p, m, k)
  {
    if p.Held? && p.open then Held(AfterPublish(p.chan, m, k), !(k.writes && k.drops)) else p
  }

  /** `kept`: the attempt failed, and so did the reconnect, so the channel stays. */
  datatype Outcome = Outcome(pub: Pub, ok: bool, kept: bool)

  function Tried(p: Pub, m: Msg, a: Attempt): Outcome
    requires CanPublish(p, m, a.conditions)
  {
    if OnceOk(p, m, a.conditions) then Outcome(Once(p, m, a.conditions), true, false)
    else if a.canceled then Outcome(NoChannel, false, false)
    else if a.reopens then Outcome(NewChannel, false, false)
    else Outcome(Once(p, m, a.conditions), false, true)
  }

  predicate CanHappen(p: Pub, m: Msg, first: Attempt, second: Attempt) {
    CanPublish(p, m, first.conditions) && CanPublish(NewChannel, m, second.conditions)
  }

  function Published(p: Pub, m: Msg, first: Attempt, second: Attempt): Outcome
    requires CanHappen(p, m, first, second)
  {
    var o := Tried(p, m, first);
    if o.ok || first.canceled || o.kept then o else Tried(o.pub, m, second)
  }

  lemma TriedIsTrustworthy(p: Pub, m: Msg, a: Attempt)
    requires p.Sane() && CanPublish(p, m, a.conditions)
    ensures Tried(p, m, a).pub.Sane()
    ensures p.Trustworthy() ==>
              var o := Tried(p, m, a);
              && (o.ok ==> o.pub.Held? && Acked(o.pub.chan, m))
              && (!o.kept ==> o.pub.Trustworthy())
  {
    if p.Held? {
      AfterIsWellFormed(Sent(p.chan, m), a.conditions.answers);
      if p.open && Quiet(p.chan) {
        QuietPublish(p.chan, m, a.conditions);
      }
    }
  }

  /** From a trustworthy channel success means an ack of this very message, and the channel stays
      trustworthy unless it is kept after a failure. */
  lemma PublishedIsTrustworthy(p: Pub, m: Msg, first: Attempt, second: Attempt)
    requires p.Sane() && CanHappen(p, m, first, second)
    ensures Published(p, m, first, second).pub.Sane()
    ensures p.Trustworthy() ==>
              var o := Published(p, m, first, second);
              && (o.ok ==> o.pub.Held? && Acked(o.pub.chan, m))
              && (!o.kept ==> o.pub.Trustworthy())
  {
    TriedIsTrustworthy(p, m, first);
    TriedIsTrustworthy(NewChannel, m, second);
  }

  /** A channel is kept after a failure only where no new one could be opened and the caller had not given
      up; otherwise a failed publication leaves no channel or a new one. */
  lemma OnlyFailedReconnectsKeep(p: Pub, m: Msg, first: Attempt, second: Attempt)
    requires CanHappen(p, m, first, second)
    ensures var o := Published(p, m, first, second);
            var secondFails := !OnceOk(NewChannel, m, second.conditions);
            && (o.kept <==>
                  && !OnceOk(p, m, first.conditions) && !first.canceled
                  && (!first.reopens || (secondFails && !second.canceled && !second.reopens)))
            && (!o.ok && !o.kept ==> o.pub == NoChannel || o.pub == NewChannel)
            && (!o.ok && (first.canceled || (first.reopens && second.canceled)) ==> o.pub == NoChannel)
  {
  }

  /** A failed attempt leaves a quiet channel quiet exactly if the message never left or its answer
      was read: after a timeout, a cancelled wait or a doubtful write it does not. */
  lemma StaysQuietIff(c: Chan, m: Msg, k: Conditions)
    requires WellFormed(c) && Quiet(c) && Script(Sent(c, m), k.answers)
    ensures Quiet(AfterPublish(c, m, k)) <==> if k.writes then k.inTime && k.answers != [] else !k.leftAnyway
  {
    var s := Sent(c, m);
    AfterIsWellFormed(s, k.answers);
    QuietScripts(c, m, k.answers);
    assert |c.sent| < |s.sent| && |c.sent| !in s.answered;
    if k.answers != [] {
      assert k.answers == [k.answers[0]];
      assert After(s, k.answers) == Answered(s, k.answers[0]) by {
        assert k.answers[1..] == [];
      }
    }
  }

  /** Everything a run does: calls, and before each of them answers that come late and a drop. */
  datatype Call = Call(m: Msg, late: seq<Answer>, drops: bool, first: Attempt, second: Attempt)

  predicate CanCome(p: Pub, late: seq<Answer>) {
    p.Held? ==> Script(p.chan, late)
  }

  function Meanwhile(p: Pub, late: seq<Answer>, drops: bool): Pub
    requires CanCome(p, late)
  {
    if p.Held? then Held(After(p.chan, late), p.open && !drops) else p
  }

  predicate CanRun(p: Pub, calls: seq<Call>)
    decreases |calls|
  {
    calls == [] ||
    (var c := calls[0];
     && CanCome(p, c.late) && CanHappen(Meanwhile(p, c.late, c.drops), c.m, c.first, c.second)
     && CanRun(Published(Meanwhile(p, c.late, c.drops), c.m, c.first, c.second).pub, calls[1..]))
  }

  function Outcomes(p: Pub, calls: seq<Call>): (os: seq<Outcome>)
    requires CanRun(p, calls)
    ensures |os| == |calls|
    decreases |calls|
  {
    if calls == [] then []
    else
      var c := calls[0];
      var o := Published(Meanwhile(p, c.late, c.drops), c.m, c.first, c.second);
      [o] + Outcomes(o.pub, calls[1..])
  }

  lemma MeanwhileStaysTrustworthy(p: Pub, late: seq<Answer>, drops: bool)
    requires p.Sane() && CanCome(p, late)
    ensures Meanwhile(p, late, drops).Sane()
    ensures p.Trustworthy() ==> Meanwhile(p, late, drops).Trustworthy()
  {
    if p.Held? {
      AfterIsWellFormed(p.chan, late);
      if Quiet(p.chan) {
        QuietScripts(p.chan, 0, late);
      }
    }
  }

  /** The message may be on its way with its answer still due, on a channel that is still open: the
      confirm was not waited for to the end, or the write is in doubt. */
  predicate LeftInDoubt(k: Conditions) {
    if k.writes then !k.drops && !(k.inTime && k.answers != []) else k.leftAnyway
  }

  /** The call keeps an open channel whose last message was left in doubt. */
  predicate Doubt(p: Pub, c: Call)
    requires CanHappen(p, c.m, c.first, c.second)
  {
    var o := Tried(p, c.m, c.first);
    if o.kept then p.Held? && p.open && LeftInDoubt(c.first.conditions)
    else !o.ok && !c.first.canceled && Tried(o.pub, c.m, c.second).kept && LeftInDoubt(c.second.conditions)
  }

  lemma TriedInDoubt(p: Pub, m: Msg, a: Attempt)
    requires p.Sane() && p.Trustworthy() && CanPublish(p, m, a.conditions)
    ensures Tried(p, m, a).pub.Trustworthy() <==>
              !(Tried(p, m, a).kept && p.Held? && p.open && LeftInDoubt(a.conditions))
  {
    TriedIsTrustworthy(p, m, a);
    if p.Held? && p.open {
      StaysQuietIff(p.chan, m, a.conditions);
    }
  }

  /** From a trustworthy channel a call leaves one unless it leaves a doubt. */
  lemma TrustworthyIffNoDoubt(p: Pub, c: Call)
    requires p.Sane() && p.Trustworthy() && CanHappen(p, c.m, c.first, c.second)
    ensures Published(p, c.m, c.first, c.second).pub.Trustworthy() <==> !Doubt(p, c)
  {
    TriedInDoubt(p, c.m, c.first);
    TriedInDoubt(NewChannel, c.m, c.second);
  }

  /** Whatever is published next, the first confirm read is its own. */
  ghost predicate AttributesNext(p: Pub) {
    p.Held? && p.open ==> forall m :: Attributes(p.chan, m)
  }

  lemma TrustworthyIffAttributes(p: Pub)
    requires p.Sane()
    ensures p.Trustworthy() <==> AttributesNext(p)
  {
    if p.Held? && p.open {
      forall m: Msg
        ensures Attributes(p.chan, m) <==> Quiet(p.chan)
      {
        AttributesIffQuiet(p.chan, m);
      }
      assert Attributes(p.chan, 0) <==> Quiet(p.chan);
    }
  }

  /** Which calls of a run leave a doubt. */
  function Doubts(p: Pub, calls: seq<Call>): (ds: seq<bool>)
    requires CanRun(p, calls)
    ensures |ds| == |calls|
    decreases |calls|
  {
    if calls == [] then []
    else
      var c := calls[0];
      var q := Meanwhile(p, c.late, c.drops);
      [Doubt(q, c)] + Doubts(Published(q, c.m, c.first, c.second).pub, calls[1..])
  }

  /** Over any run from a trustworthy channel, as long as no earlier call left a doubt: a success is the
      ack of the call's own message, and the next confirm will be attributed correctly exactly if this
      call leaves no doubt either. */
  lemma {:induction false} RightUntilFirstDoubt(p: Pub, calls: seq<Call>, n: nat)
    requires p.Sane() && p.Trustworthy() && CanRun(p, calls) && n < |calls|
    requires forall i :: 0 <= i < n ==> !Doubts(p, calls)[i]
    ensures var o := Outcomes(p, calls)[n];
            && (o.ok ==> o.pub.Held? && Acked(o.pub.chan, calls[n].m))
            && (AttributesNext(o.pub) <==> !Doubts(p, calls)[n])
    decreases |calls|
  {
    var c := calls[0];
    var o := CallOutcome(p, c);
    if n > 0 {
      assert !Doubts(p, calls)[0];
      assert forall i :: 0 <= i < n - 1 ==> Doubts(o.pub, calls[1..])[i] == Doubts(p, calls)[i + 1];
      RightUntilFirstDoubt(o.pub, calls[1..], n - 1);
    }
  }

  /** One call of a run, with what comes late before it. */
  lemma CallOutcome(p: Pub, c: Call) returns (o: Outcome)
    requires p.Sane() && p.Trustworthy() && CanCome(p, c.late)
    requires CanHappen(Meanwhile(p, c.late, c.drops), c.m, c.first, c.second)
    ensures var q := Meanwhile(p, c.late, c.drops);
            && o == Published(q, c.m, c.first, c.second)
            && o.pub.Sane() && (o.ok ==> o.pub.Held? && Acked(o.pub.chan, c.m))
            && (AttributesNext(o.pub) <==> !Doubt(q, c)) && (o.pub.Trustworthy() <==> !Doubt(q, c))
  {
    var q := Meanwhile(p, c.late, c.drops);
    o := Published(q, c.m, c.first, c.second);
    MeanwhileStaysTrustworthy(p, c.late, c.drops);
    PublishedIsTrustworthy(q, c.m, c.first, c.second);
    TrustworthyIffNoDoubt(q, c);
    TrustworthyIffAttributes(o.pub);
  }

  /** The failing input: a confirm times out, the reconnect fails and the channel is kept; the late
      ack of the first message then makes the second publish succeed, although the broker has never
      answered the second message. */
  lemma LateAckIsTakenForTheNextMessage(first: Msg, second: Msg)
    ensures var unused := Attempt(Conditions(false, false, false, [], false, false), false, false);
            var timesOut := Attempt(Conditions(false, true, false, [], false, false), false, false);
            var lateAck := Attempt(Conditions(false, true, false, [Answer(0, true)], false, true), false, false);
            && CanHappen(NewChannel, first, timesOut, unused)
            && var o := Published(NewChannel, first, timesOut, unused);
            && o.kept && !Attributes(o.pub.chan, second)
            && CanHappen(o.pub, second, lateAck, unused)
            && var o2 := Published(o.pub, second, lateAck, unused);
            && o2.ok && o2.pub.chan.sent == [first, second] && 1 !in o2.pub.chan.answered
  {
    TimedOutChannelMisattributes(first, second);
    assert [Answer(0, true)][1..] == [];
  }

  class RabbitBroker {
    var ch: ConfirmChannel?

    ghost predicate Valid()
      reads this, ch
    {
      View().Sane()
    }

    ghost function View(): Pub
      reads this, ch
    {
      if ch == null then NoChannel else Held(ch.state, ch.open)
    }

    constructor ()
      ensures Valid() && View() == NewChannel && fresh(ch)
    {
      ch := new ConfirmChannel();
    }

    method PublishOnce(m: Msg, c: Conditions) returns (ok: bool)
      requires Valid() && CanPublish(View(), m, c)
      modifies ch
      ensures Valid() && ok == OnceOk(old(View()), m, c) && View() == Once(old(View()), m, c)
    {
      if ch == null {
        return false;
      }
      ok := ch.PublishConfirmed(m, c);
    }

    method ReconnectPublisher(opens: bool) returns (ok: bool)
      requires Valid()
      modifies this, ch
      ensures Valid() && ok == opens && View() == if opens then NewChannel else old(View())
      ensures if opens then fresh(ch) else ch == old(ch)
    {
      if !opens {
        return false;
      }
      var pub := new ConfirmChannel();
      if ch != null {
        ch.Close();
      }
      ch := pub;
      return true;
    }

    method DiscardPublisher()
      modifies this, ch
      ensures View() == NoChannel
    {
      if ch != null {
        ch.Close();
      }
      ch := null;
    }

    /** Up to two attempts with a reconnect after each failure. */
    method Publish(m: Msg, first: Attempt, second: Attempt) returns (ok: bool)
      requires Valid() && CanHappen(View(), m, first, second)
      modifies this, ch
      ensures Valid()
      ensures View() == Published(old(View()), m, first, second).pub &&
              ok == Published(old(View()), m, first, second).ok
      ensures old(View()).Trustworthy() && ok ==> ch != null && Acked(ch.state, m)
    {
      PublishedIsTrustworthy(View(), m, first, second);
      for attempt := 0 to 2
        invariant Valid()
        invariant attempt == 0 ==> ch == old(ch) && View() == old(View())
        invariant attempt == 1 ==> View() == NewChannel && ch != null && fresh(ch)
        invariant attempt == 2 ==> View() == NewChannel
        invariant attempt > 0 ==> !OnceOk(old(View()), m, first.conditions) && !first.canceled && first.reopens
        invariant attempt > 1 ==> !OnceOk(NewChannel, m, second.conditions) && !second.canceled && second.reopens
      {
        var a := if attempt == 0 then first else second;
        ok := PublishOnce(m, a.conditions);
        if ok {
          return true;
        }
        if a.canceled {
          DiscardPublisher();
          return false;
        }
        var connected := ReconnectPublisher(a.reopens);
        if !connected {
          break;
        }
      }
      ok := false;
    }
  }
}
