/** What holds of the prompt store in every run of conversations, whatever the answering process does. */
module PamStore {
  import opened Bytes
  import opened AuthMessages
  import opened PamData

  const ASKABLE: set<PromptType> :=
    {UNKNOWN, CHANGE_CURRENT, CHANGE_NEW, CHANGE_REPEAT, LOGIN_USER, LOGIN_PASSWORD}

  ghost predicate Distinct(ps: seq<Prompt>) {
    forall i, j | 0 <= i < j < |ps| :: ps[i].kind != ps[j].kind
  }

  ghost predicate Unanswered(ps: seq<Prompt>) {
    forall i | 0 <= i < |ps| :: ps[i].response == []
  }

  ghost predicate Askable(ps: seq<Prompt>) {
    forall i | 0 <= i < |ps| :: ps[i].kind in ASKABLE
  }

  ghost predicate Inv(s: Store) {
    && s.shared == INVALID_PROMPT
    && Askable(s.prompts)
    && Distinct(s.prompts)
    && (s.sent ==> s.prompts != [])
    && (!s.sent ==> Unanswered(s.prompts))
  }

  // ------------------------------------------------------------ single steps

  /** A lookup with distinct kinds removes the prompt it found and nothing else; a failed one removes nothing. */
  lemma {:induction false} RemoveOneExact(ps: seq<Prompt>, i: int, p: Prompt)
    requires -1 <= i < |ps| && (if i == -1 then p !in ps else p == ps[i] && Distinct(ps))
    ensures RemoveOne(ps, p) == if i == -1 then ps else ps[..i] + ps[i + 1..]
  {
    if ps != [] {
      if i == -1 {
        assert p !in ps[1..] && ps[0] != p;
        RemoveOneExact(ps[1..], -1, p);
      } else if i > 0 {
        RemoveOneExact(ps[1..], i - 1, p);
        assert ps[..i] == [ps[0]] + ps[1..][..i - 1] && ps[1..][i..] == ps[i + 1..];
      }
    }
  }

  lemma PredictedIsGood(kind: PromptType)
    ensures Askable(Predicted(kind)) && Distinct(Predicted(kind)) && Unanswered(Predicted(kind))
    ensures Predicted(kind) != [] ==> Predicted(kind)[0].kind == kind
  {
  }

  lemma FreshIsGood(lex: Lexicon, s: Store, m: PamMessage, predict: bool)
    requires Inv(s) && Find(lex, s.prompts, m) == -1
    ensures var ps := Fresh(lex, s, m, predict);
      && Askable(ps) && Distinct(ps) && Unanswered(ps) && ps != []
      && exists i | 0 <= i < |ps| :: Hits(lex, m, ps[i])
  {
    var ps, kind := Fresh(lex, s, m, predict), Detect(lex, m);
    PredictedIsGood(kind);
    assert kind in ASKABLE;
    if predict && Predicted(kind) != [] {
      assert Hits(lex, m, ps[0]);
    } else {
      assert Hits(lex, m, ps[|ps| - 1]);
      assert forall i | 0 <= i < |s.prompts| :: s.prompts[i].kind != kind;
    }
  }

  /** The second store has no answers that the first had not. */
  ghost predicate NoNewAnswers(s: Store, s': Store) {
    forall i | 0 <= i < |s'.prompts| && s'.prompts[i].response != [] :: s'.prompts[i] in s.prompts
  }

  lemma InsertKeeps(lex: Lexicon, s: Store, m: PamMessage, predict: bool)
    requires Inv(s)
    ensures var (s', asking) := Insert(lex, s, m, predict);
      && Inv(s')
      && asking == !s'.sent
      && s'.prompts != []
      && (!asking ==> s' == s)
      && NoNewAnswers(s, s')
      && Find(lex, s'.prompts, m) != -1
  {
    var s' := Insert(lex, s, m, predict).0;
    var i := Find(lex, s.prompts, m);
    if i != -1 {
      assert Hits(lex, m, s'.prompts[i]);
    } else {
      FreshIsGood(lex, s, m, predict);
    }
  }

  lemma OneFewer(ps: seq<Prompt>, i: nat)
    requires i < |ps| && Askable(ps) && Distinct(ps)
    ensures var left := ps[..i] + ps[i + 1..];
      Askable(left) && Distinct(left) && (Unanswered(ps) ==> Unanswered(left))
  {
    var left := ps[..i] + ps[i + 1..];
    assert forall j | 0 <= j < |left| :: left[j] == ps[if j < i then j else j + 1];
  }

  lemma TakeResponseKeeps(lex: Lexicon, s: Store, m: PamMessage)
    requires Inv(s)
    ensures var (s', p) := TakeResponse(lex, s, m);
      var i := Find(lex, s.prompts, m);
      && Inv(s')
      && s'.prompts == (if i == -1 then s.prompts else s.prompts[..i] + s.prompts[i + 1..])
      && (i == -1 ==> s' == s && p == INVALID_PROMPT)
      && (i != -1 ==> p == s.prompts[i] && Hits(lex, m, p))
      && s'.sent == (s.sent && s'.prompts != [])
  {
    var i := Find(lex, s.prompts, m);
    RemoveOneExact(s.prompts, i, s.At(i));
    if i != -1 { OneFewer(s.prompts, i); }
  }

  lemma CompleteKeeps(s: Store, r: Request)
    requires Inv(s) && r.Valid()
    ensures Inv(Complete(s, r))
  {
    if Mirrors(r, s.prompts) {
      forall i | 0 <= i < |s.prompts| ensures r.prompts[i].kind == s.prompts[i].kind {
        assert SameQuestion(r.prompts[i], s.prompts[i]);
      }
    }
  }

  lemma {:induction false} DistinctKindsAreFew(ps: seq<Prompt>, pool: set<PromptType>)
    requires Distinct(ps) && forall i | 0 <= i < |ps| :: ps[i].kind in pool
    ensures |ps| <= |pool|
  {
    if ps != [] {
      var n := |ps| - 1;
      DistinctKindsAreFew(ps[..n], pool - {ps[n].kind});
    }
  }

  lemma AtMostSix(s: Store)
    requires Inv(s)
    ensures |s.prompts| <= 6
  {
    DistinctKindsAreFew(s.prompts, ASKABLE);
  }

  // ------------------------------------------------------- one conversation

  function Asks(lex: Lexicon, s: Store, m: PamMessage, single: bool): bool {
    m.style in {EchoOff, EchoOn} && Insert(lex, s, m, single).1
  }

  lemma HandleInfoKeeps(lex: Lexicon, s: Store, m: PamMessage, single: bool)
    requires Inv(s)
    ensures var s' := HandleInfo(lex, s, m, single).0;
      && Inv(s') && s'.sent == s.sent && NoNewAnswers(s, s') && (s.prompts != [] ==> s'.prompts != [])
  {
    PredictedIsGood(CHANGE_CURRENT);
    assert CHANGE_PASS_REQUEST.prompts == Predicted(CHANGE_CURRENT);
  }

  lemma HearOneKeeps(lex: Lexicon, h: Heard, m: PamMessage, single: bool)
    requires Inv(h.store)
    ensures var h' := HearOne(lex, h, m, single);
      && Inv(h'.store)
      && NoNewAnswers(h.store, h'.store)
      && h'.newRequest == (if m.style in {EchoOff, EchoOn} then Asks(lex, h.store, m, single) else h.newRequest)
      && (h.store.prompts != [] || Asks(lex, h.store, m, single) ==> h'.store.prompts != [])
      && h'.store.sent == (h.store.sent && !Asks(lex, h.store, m, single))
  {
    match m.style {
      case EchoOff => InsertKeeps(lex, h.store, m, single);
      case EchoOn => InsertKeeps(lex, h.store, m, single);
      case ErrorMsg =>
      case TextInfo => HandleInfoKeeps(lex, h.store, m, single);
      case OtherStyle =>
    }
  }

  /** Whether some message of the first loop asked for a request. */
  function SomeInsertAsked(lex: Lexicon, s: Store, msgs: seq<PamMessage>, single: bool): bool {
    if msgs == [] then false
    else
      var front, m := msgs[..|msgs| - 1], msgs[|msgs| - 1];
      SomeInsertAsked(lex, s, front, single) || Asks(lex, Hear(lex, s, front, single).store, m, single)
  }

  /** The flag is overwritten by every message, yet at the end it tells whether any message asked;
      when it does, the request to be sent is not empty. */
  lemma {:induction false} FlagIsAny(lex: Lexicon, s: Store, msgs: seq<PamMessage>, single: bool)
    requires Inv(s)
    ensures var h := Hear(lex, s, msgs, single);
      && Inv(h.store)
      && h.newRequest == SomeInsertAsked(lex, s, msgs, single)
      && (h.newRequest ==> !h.store.sent && RequestToSend(h.store).Valid())
  {
    if msgs != [] {
      var front, m := msgs[..|msgs| - 1], msgs[|msgs| - 1];
      FlagIsAny(lex, s, front, single);
      var h := Hear(lex, s, front, single);
      HearOneKeeps(lex, h, m, single);
      InsertKeeps(lex, h.store, m, single);
    }
  }

  lemma {:induction false} DeliverKeeps(lex: Lexicon, s: Store, msgs: seq<PamMessage>)
    requires Inv(s)
    ensures Inv(Deliver(lex, s, msgs).0)
  {
    if msgs != [] {
      DeliverKeeps(lex, s, msgs[..|msgs| - 1]);
      TakeResponseKeeps(lex, Deliver(lex, s, msgs[..|msgs| - 1]).0, msgs[|msgs| - 1]);
    }
  }

  lemma ConversationKeeps(lex: Lexicon, s: Store, t: Turn)
    requires Inv(s)
    ensures Inv(Conversation(lex, s, t).store)
  {
    if 1 <= |t.msgs| <= PAM_MAX_NUM_MSG {
      FlagIsAny(lex, s, t.msgs, |t.msgs| == 1);
      var h := Hear(lex, s, t.msgs, |t.msgs| == 1);
      var received := t.peer(RequestToSend(h.store));
      DeliverKeeps(lex, h.store, t.msgs);
      if received.Valid() {
        CompleteKeeps(h.store, received);
        DeliverKeeps(lex, Complete(h.store, received), t.msgs);
      }
    }
  }

  // -------------------------------------------------------------- whole runs

  function After(lex: Lexicon, turns: seq<Turn>): Store {
    if turns == [] then EMPTY_STORE
    else Conversation(lex, After(lex, turns[..|turns| - 1]), turns[|turns| - 1]).store
  }

  /** Every run from the start keeps the invariant, so never more than six prompts are stored. */
  lemma {:induction false} StoreInvariant(lex: Lexicon, turns: seq<Turn>)
    ensures Inv(After(lex, turns)) && |After(lex, turns).prompts| <= 6
  {
    if turns != [] {
      StoreInvariant(lex, turns[..|turns| - 1]);
      ConversationKeeps(lex, After(lex, turns[..|turns| - 1]), turns[|turns| - 1]);
    }
    AtMostSix(After(lex, turns));
  }

  // ------------------------------------------------------ answers are linear

  datatype Event = Accepted(prompts: seq<Prompt>) | Handed(msg: PamMessage, prompt: Prompt)

  function HandedOut(msgs: seq<PamMessage>, ps: seq<Prompt>): (ev: seq<Event>)
    requires |msgs| == |ps|
  {
    seq(|msgs|, i requires 0 <= i < |msgs| => Handed(msgs[i], ps[i]))
  }

  function TurnEvents(lex: Lexicon, s: Store, t: Turn): seq<Event> {
    var talk := Conversation(lex, s, t);
    (if talk.accepted then [Accepted(t.peer(talk.asked[0]).prompts)] else [])
    + (if talk.outcome.Given? then HandedOut(t.msgs, talk.outcome.prompts) else [])
  }

  function Trace(lex: Lexicon, turns: seq<Turn>): seq<Event> {
    if turns == [] then []
    else
      var front := turns[..|turns| - 1];
      Trace(lex, front) + TurnEvents(lex, After(lex, front), turns[|turns| - 1])
  }

  /** The last accepted request before a point of the trace. */
  function LastAccepted(ev: seq<Event>): seq<Prompt> {
    if ev == [] then []
    else match ev[|ev| - 1]
      case Accepted(ps) => ps
      case Handed(_, _) => LastAccepted(ev[..|ev| - 1])
  }

  /** The kinds of the answers handed out since then. */
  function UsedSince(ev: seq<Event>): set<PromptType> {
    if ev == [] then {}
    else match ev[|ev| - 1]
      case Accepted(_) => {}
      case Handed(_, p) => UsedSince(ev[..|ev| - 1]) + (if p.response != [] then {p.kind} else {})
  }

  /** Event k hands out either nothing, or a prompt of the last accepted request that the message hits and
      that was not handed out before. */
  ghost predicate LinearAt(lex: Lexicon, ev: seq<Event>, k: nat)
    requires k < |ev|
  {
    ev[k].Handed? && ev[k].prompt.response != [] ==>
      && ev[k].prompt in LastAccepted(ev[..k])
      && Distinct(LastAccepted(ev[..k]))
      && Hits(lex, ev[k].msg, ev[k].prompt)
      && ev[k].prompt.kind !in UsedSince(ev[..k])
  }

  ghost predicate Linear(lex: Lexicon, ev: seq<Event>) {
    forall k | 0 <= k < |ev| :: LinearAt(lex, ev, k)
  }

  /** Every stored answer belongs to the last accepted request and has not been used. */
  ghost predicate Backed(s: Store, ev: seq<Event>) {
    && Inv(s)
    && Distinct(LastAccepted(ev))
    && forall i | 0 <= i < |s.prompts| && s.prompts[i].response != [] ::
         s.prompts[i] in LastAccepted(ev) && s.prompts[i].kind !in UsedSince(ev)
  }

  lemma LinearAppend(lex: Lexicon, ev: seq<Event>, e: Event)
    requires Linear(lex, ev) && LinearAt(lex, ev + [e], |ev|)
    ensures Linear(lex, ev + [e])
    ensures LastAccepted(ev + [e]) == if e.Accepted? then e.prompts else LastAccepted(ev)
    ensures UsedSince(ev + [e]) == if e.Accepted? then {}
                                   else UsedSince(ev) + (if e.prompt.response != [] then {e.prompt.kind} else {})
  {
    var all := ev + [e];
    assert all[..|ev|] == ev;
    forall k | 0 <= k < |all| ensures LinearAt(lex, all, k) {
      if k < |ev| {
        assert all[..k] == ev[..k] && LinearAt(lex, ev, k);
      }
    }
  }

  /** The first loop creates no answers. */
  lemma {:induction false} HearAddsNoAnswers(lex: Lexicon, s: Store, msgs: seq<PamMessage>, single: bool, ev: seq<Event>)
    requires Backed(s, ev)
    ensures Backed(Hear(lex, s, msgs, single).store, ev)
  {
    if msgs != [] {
      var front, m := msgs[..|msgs| - 1], msgs[|msgs| - 1];
      HearAddsNoAnswers(lex, s, front, single, ev);
      HearOneKeeps(lex, Hear(lex, s, front, single), m, single);
    }
  }

  /** The answers that are left have other types than the one taken out. */
  lemma OthersStayBacked(ps: seq<Prompt>, i: nat, last: seq<Prompt>, used: set<PromptType>)
    requires i < |ps| && Distinct(ps)
    requires forall j | 0 <= j < |ps| && ps[j].response != [] :: ps[j] in last && ps[j].kind !in used
    ensures var left := ps[..i] + ps[i + 1..];
      forall j | 0 <= j < |left| && left[j].response != [] :: left[j] in last && left[j].kind !in used + {ps[i].kind}
  {
    var left := ps[..i] + ps[i + 1..];
    forall j | 0 <= j < |left| && left[j].response != []
      ensures left[j] in last && left[j].kind !in used + {ps[i].kind}
    {
      assert left[j] == ps[if j < i then j else j + 1];
    }
  }

  lemma TakeResponseIsLinear(lex: Lexicon, s: Store, m: PamMessage, ev: seq<Event>)
    requires Backed(s, ev) && Linear(lex, ev)
    ensures var (s', p) := TakeResponse(lex, s, m);
      Backed(s', ev + [Handed(m, p)]) && Linear(lex, ev + [Handed(m, p)])
  {
    TakeResponseKeeps(lex, s, m);
    var (s', p) := TakeResponse(lex, s, m);
    var all := ev + [Handed(m, p)];
    assert all[..|ev|] == ev;
    LinearAppend(lex, ev, Handed(m, p));
    assert LastAccepted(all) == LastAccepted(ev);
    assert UsedSince(all) == UsedSince(ev) + (if p.response != [] then {p.kind} else {});
    var i := Find(lex, s.prompts, m);
    if i != -1 {
      OthersStayBacked(s.prompts, i, LastAccepted(ev), UsedSince(ev));
    }
  }

  lemma {:induction false} DeliverIsLinear(lex: Lexicon, s: Store, msgs: seq<PamMessage>, ev: seq<Event>)
    requires Backed(s, ev) && Linear(lex, ev)
    ensures var (s', ps) := Deliver(lex, s, msgs);
      Backed(s', ev + HandedOut(msgs, ps)) && Linear(lex, ev + HandedOut(msgs, ps))
  {
    if msgs == [] {
      assert ev + HandedOut([], []) == ev;
    } else {
      var front, m := msgs[..|msgs| - 1], msgs[|msgs| - 1];
      var (mid, qs) := Deliver(lex, s, front);
      DeliverIsLinear(lex, s, front, ev);
      TakeResponseIsLinear(lex, mid, m, ev + HandedOut(front, qs));
      HandedOutMore(ev, front, qs, m, TakeResponse(lex, mid, m).1);
      assert msgs == front + [m];
    }
  }

  lemma HandedOutMore(ev: seq<Event>, msgs: seq<PamMessage>, ps: seq<Prompt>, m: PamMessage, p: Prompt)
    requires |msgs| == |ps|
    ensures ev + HandedOut(msgs + [m], ps + [p]) == ev + HandedOut(msgs, ps) + [Handed(m, p)]
  {
  }

  lemma AcceptedTurnIsLinear(lex: Lexicon, s: Store, r: Request, msgs: seq<PamMessage>, ev: seq<Event>)
    requires Backed(s, ev) && Linear(lex, ev) && r.Valid() && Mirrors(r, s.prompts)
    ensures var (s', ps) := Deliver(lex, Complete(s, r), msgs);
      var all := ev + ([Accepted(r.prompts)] + HandedOut(msgs, ps));
      Backed(s', all) && Linear(lex, all)
  {
    var mid, handed := ev + [Accepted(r.prompts)], HandedOut(msgs, Deliver(lex, Complete(s, r), msgs).1);
    AcceptIsLinear(lex, s, r, ev);
    DeliverIsLinear(lex, Complete(s, r), msgs, mid);
    assert ev + ([Accepted(r.prompts)] + handed) == mid + handed;
  }

  lemma AcceptIsLinear(lex: Lexicon, s: Store, r: Request, ev: seq<Event>)
    requires Backed(s, ev) && Linear(lex, ev) && r.Valid() && Mirrors(r, s.prompts)
    ensures Backed(Complete(s, r), ev + [Accepted(r.prompts)]) && Linear(lex, ev + [Accepted(r.prompts)])
  {
    CompleteKeeps(s, r);
    LinearAppend(lex, ev, Accepted(r.prompts));
  }

  /** The three ways a conversation can go, apart from a refused number of messages. */
  lemma TurnShape(lex: Lexicon, s: Store, t: Turn)
    requires 1 <= |t.msgs| <= PAM_MAX_NUM_MSG
    ensures var h := Hear(lex, s, t.msgs, |t.msgs| == 1).store;
      var r := t.peer(RequestToSend(h));
      var talk := Conversation(lex, s, t);
      if talk.accepted then
        var (s', ps) := Deliver(lex, Complete(h, r), t.msgs);
        && r.Valid() && Mirrors(r, h.prompts) && talk.store == s'
        && TurnEvents(lex, s, t) == [Accepted(r.prompts)] + HandedOut(t.msgs, ps)
      else if talk.outcome.Given? then
        var (s', ps) := Deliver(lex, h, t.msgs);
        talk.store == s' && TurnEvents(lex, s, t) == HandedOut(t.msgs, ps)
      else talk.store == h && TurnEvents(lex, s, t) == []
  {
  }

  lemma TurnIsLinear(lex: Lexicon, s: Store, t: Turn, ev: seq<Event>)
    requires Backed(s, ev) && Linear(lex, ev)
    ensures Backed(Conversation(lex, s, t).store, ev + TurnEvents(lex, s, t))
    ensures Linear(lex, ev + TurnEvents(lex, s, t))
  {
    if !(1 <= |t.msgs| <= PAM_MAX_NUM_MSG) {
      assert ev + TurnEvents(lex, s, t) == ev;
      return;
    }
    TurnShape(lex, s, t);
    HearAddsNoAnswers(lex, s, t.msgs, |t.msgs| == 1, ev);
    var h := Hear(lex, s, t.msgs, |t.msgs| == 1).store;
    var r := t.peer(RequestToSend(h));
    if Conversation(lex, s, t).accepted {
      AcceptedTurnIsLinear(lex, h, r, t.msgs, ev);
    } else if Conversation(lex, s, t).outcome.Given? {
      DeliverIsLinear(lex, h, t.msgs, ev);
    } else {
      assert ev + [] == ev;
    }
  }

  /** In every run, for every answering process (also one whose replies are rejected) and any number of
      messages per conversation, no answer is invented, misdirected or handed out twice. */
  lemma {:induction false} AnswersAreLinear(lex: Lexicon, turns: seq<Turn>)
    ensures Linear(lex, Trace(lex, turns))
    ensures Backed(After(lex, turns), Trace(lex, turns))
  {
    if turns != [] {
      AnswersAreLinear(lex, turns[..|turns| - 1]);
      TurnIsLinear(lex, After(lex, turns[..|turns| - 1]), turns[|turns| - 1], Trace(lex, turns[..|turns| - 1]));
    }
  }
}
