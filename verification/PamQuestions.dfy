/** What a conversation asks, in which words and whether hidden, what it passes on, and when it fails. */
module PamQuestions {
  import opened Bytes
  import opened AuthMessages
  import opened PamData
  import opened PamStore

  // ------------------------------------------------------------- classification

  /** Each type of prompt, by what its text matches: repeated before new before old, and only in texts about
      passwords. Everything that is not a hidden prompt counts as one for the user name. */
  lemma TypesOfPrompts(lex: Lexicon, m: PamMessage)
    ensures Detect(lex, m) == LOGIN_USER <==> m.style != EchoOff
    ensures Detect(lex, m) == UNKNOWN <==> m.style == EchoOff && !lex.password(m.text)
    ensures Detect(lex, m) == CHANGE_REPEAT <==> m.style == EchoOff && lex.password(m.text) && lex.asksAgain(m.text)
    ensures Detect(lex, m) == CHANGE_NEW <==>
      m.style == EchoOff && lex.password(m.text) && !lex.asksAgain(m.text) && lex.asksNew(m.text)
    ensures Detect(lex, m) == CHANGE_CURRENT <==>
      m.style == EchoOff && lex.password(m.text) && !lex.asksAgain(m.text) && !lex.asksNew(m.text) && lex.asksOld(m.text)
    ensures Detect(lex, m) == LOGIN_PASSWORD <==>
      m.style == EchoOff && lex.password(m.text) && !lex.asksAgain(m.text) && !lex.asksNew(m.text) && !lex.asksOld(m.text)
  {
  }

  /** What is guessed to come: after a user name a pass phrase; after an old password a new one and its repetition;
      after a new one its repetition. Nothing else is guessed. */
  lemma Predictions(kind: PromptType)
    ensures Predicted(LOGIN_USER) == [
      Prompt(LOGIN_USER, Text("login:"), false, []), Prompt(LOGIN_PASSWORD, Text("Password: "), true, [])]
    ensures Predicted(CHANGE_NEW) == [
      Prompt(CHANGE_NEW, Text("New password: "), true, []),
      Prompt(CHANGE_REPEAT, Text("Retype new password: "), true, [])]
    ensures Predicted(CHANGE_CURRENT) ==
      [Prompt(CHANGE_CURRENT, Text("(current) UNIX password: "), true, [])] + Predicted(CHANGE_NEW)
    ensures kind !in {LOGIN_USER, CHANGE_NEW, CHANGE_CURRENT} ==> Predicted(kind) == []
  {
  }

  /** A message that asks for a request does so in its own words, unless its whole request is a prediction. */
  lemma AskedInItsWords(lex: Lexicon, s: Store, m: PamMessage, predict: bool)
    requires Inv(s) && m.style in {EchoOff, EchoOn} && Insert(lex, s, m, predict).1
    requires Find(lex, s.prompts, m) != -1 || !predict || Predicted(Detect(lex, m)) == []
    ensures var s' := Insert(lex, s, m, predict).0;
      exists i | 0 <= i < |s'.prompts| :: s'.prompts[i].message == m.text && Hits(lex, m, s'.prompts[i])
  {
    var s', i := Insert(lex, s, m, predict).0, Find(lex, s.prompts, m);
    var k := if i != -1 then i else |s'.prompts| - 1;
    assert s'.prompts[k].message == m.text && Hits(lex, m, s'.prompts[k]);
  }

  /** A reply counts exactly if it asks the same: as many prompts, of the same type, text and visibility. */
  lemma AcceptedIff(s: Store, r: Request)
    requires !s.sent
    ensures Complete(s, r).sent <==>
      |r.prompts| == |s.prompts| && forall i | 0 <= i < |s.prompts| ::
        r.prompts[i].kind == s.prompts[i].kind && r.prompts[i].message == s.prompts[i].message
        && r.prompts[i].hidden == s.prompts[i].hidden
    ensures Complete(s, r).sent ==> Complete(s, r).prompts == r.prompts
    ensures !Complete(s, r).sent ==> Complete(s, r) == s
  {
    if Complete(s, r).sent {
      forall i | 0 <= i < |s.prompts| ensures SameQuestion(r.prompts[i], s.prompts[i]) {
      }
    }
  }

  // --------------------------------------------------------- secrets are hidden

  /** Exactly the prompts that are not for the user name hide what is typed. */
  ghost predicate Veiled(ps: seq<Prompt>) {
    forall i | 0 <= i < |ps| :: ps[i].hidden <==> ps[i].kind != LOGIN_USER
  }

  lemma InsertVeils(lex: Lexicon, s: Store, m: PamMessage, predict: bool)
    requires Inv(s) && Veiled(s.prompts) && m.style in {EchoOff, EchoOn}
    ensures Veiled(Insert(lex, s, m, predict).0.prompts)
  {
    var i := Find(lex, s.prompts, m);
    Predictions(Detect(lex, m));
    TypesOfPrompts(lex, m);
  }

  lemma HearOneVeils(lex: Lexicon, h: Heard, m: PamMessage, single: bool)
    requires Inv(h.store) && Veiled(h.store.prompts)
    ensures Veiled(HearOne(lex, h, m, single).store.prompts)
  {
    if m.style in {EchoOff, EchoOn} { InsertVeils(lex, h.store, m, single); }
    Predictions(CHANGE_CURRENT);
    assert CHANGE_PASS_REQUEST.prompts == Predicted(CHANGE_CURRENT);
  }

  lemma {:induction false} HearVeils(lex: Lexicon, s: Store, msgs: seq<PamMessage>, single: bool)
    requires Inv(s) && Veiled(s.prompts)
    ensures Veiled(Hear(lex, s, msgs, single).store.prompts)
  {
    if msgs != [] {
      var front := msgs[..|msgs| - 1];
      HearVeils(lex, s, front, single);
      FlagIsAny(lex, s, front, single);
      HearOneVeils(lex, Hear(lex, s, front, single), msgs[|msgs| - 1], single);
    }
  }

  lemma {:induction false} DeliverVeils(lex: Lexicon, s: Store, msgs: seq<PamMessage>)
    requires Inv(s) && Veiled(s.prompts)
    ensures Veiled(Deliver(lex, s, msgs).0.prompts)
  {
    if msgs != [] {
      var front, m := msgs[..|msgs| - 1], msgs[|msgs| - 1];
      DeliverVeils(lex, s, front);
      DeliverKeeps(lex, s, front);
      var mid := Deliver(lex, s, front).0;
      TakeResponseKeeps(lex, mid, m);
      var i := Find(lex, mid.prompts, m);
      if i != -1 { FewerVeiled(mid.prompts, i); }
    }
  }

  lemma FewerVeiled(ps: seq<Prompt>, i: nat)
    requires i < |ps| && Veiled(ps)
    ensures Veiled(ps[..i] + ps[i + 1..])
  {
    var left := ps[..i] + ps[i + 1..];
    assert forall j | 0 <= j < |left| :: left[j] == ps[if j < i then j else j + 1];
  }

  lemma CompleteVeils(s: Store, r: Request)
    requires Veiled(s.prompts)
    ensures Veiled(Complete(s, r).prompts)
  {
    if Mirrors(r, s.prompts) {
      forall i | 0 <= i < |r.prompts| ensures r.prompts[i].hidden <==> r.prompts[i].kind != LOGIN_USER {
        assert SameQuestion(r.prompts[i], s.prompts[i]);
      }
    }
  }

  lemma ConversationVeils(lex: Lexicon, s: Store, t: Turn)
    requires Inv(s) && Veiled(s.prompts)
    ensures var talk := Conversation(lex, s, t);
      Veiled(talk.store.prompts) && forall i | 0 <= i < |talk.asked| :: Veiled(talk.asked[i].prompts)
  {
    if 1 <= |t.msgs| <= PAM_MAX_NUM_MSG {
      var h := Hear(lex, s, t.msgs, |t.msgs| == 1);
      HearVeils(lex, s, t.msgs, |t.msgs| == 1);
      FlagIsAny(lex, s, t.msgs, |t.msgs| == 1);
      var received := t.peer(RequestToSend(h.store));
      DeliverVeils(lex, h.store, t.msgs);
      if received.Valid() {
        CompleteKeeps(h.store, received);
        CompleteVeils(h.store, received);
        DeliverVeils(lex, Complete(h.store, received), t.msgs);
      }
    }
  }

  /** In every run, whatever is answered, every request shows what is typed for a user name and hides it for
      everything else. */
  lemma {:induction false} SecretsAreHidden(lex: Lexicon, turns: seq<Turn>, t: Turn)
    ensures Veiled(After(lex, turns).prompts)
    ensures var talk := Conversation(lex, After(lex, turns), t);
      forall i | 0 <= i < |talk.asked| :: Veiled(talk.asked[i].prompts)
    decreases |turns|
  {
    if turns != [] {
      var n := |turns| - 1;
      SecretsAreHidden(lex, turns[..n], turns[n]);
      StoreInvariant(lex, turns[..n]);
      ConversationVeils(lex, After(lex, turns[..n]), turns[n]);
    }
    StoreInvariant(lex, turns);
    ConversationVeils(lex, After(lex, turns), t);
  }

  // ------------------------------------------------------- what a call amounts to

  /** A conversation fails exactly if the number of messages is out of range or its request came back empty; then
      nothing is handed out, and the store is as the messages left it. */
  lemma FailsIff(lex: Lexicon, s: Store, t: Turn)
    ensures var talk := Conversation(lex, s, t);
      && (talk.outcome.ConvError? <==>
            |t.msgs| == 0 || |t.msgs| > 32 || (talk.asked != [] && t.peer(talk.asked[0]).prompts == []))
      && (talk.outcome.ConvError? ==>
            && !talk.accepted
            && talk.store == if 1 <= |t.msgs| <= 32 then Hear(lex, s, t.msgs, |t.msgs| == 1).store else s)
      && (talk.outcome.Given? ==> |talk.outcome.prompts| == |t.msgs|)
  {
  }

  /** One request is made if any message asked for it, with all that is stored, and none otherwise. */
  lemma AsksOnce(lex: Lexicon, s: Store, t: Turn)
    requires Inv(s) && 1 <= |t.msgs| <= 32
    ensures var single := |t.msgs| == 1;
      Conversation(lex, s, t).asked == if SomeInsertAsked(lex, s, t.msgs, single)
        then [Request(Hear(lex, s, t.msgs, single).store.prompts)] else []
  {
    FlagIsAny(lex, s, t.msgs, |t.msgs| == 1);
  }

  /** What is passed on to the daemon, read from the front: every error and information message, in order. */
  function Passed(lex: Lexicon, msgs: seq<PamMessage>): seq<Notice> {
    if msgs == [] then []
    else
      (if msgs[0].style == ErrorMsg then [ErrorNotice(msgs[0].text)]
       else if msgs[0].style == TextInfo then
         [InfoNotice(msgs[0].text, if lex.changing(msgs[0].text) then InfoPassChangeRequired else InfoUnknown)]
       else [])
      + Passed(lex, msgs[1..])
  }

  lemma {:induction false} PassedMore(lex: Lexicon, msgs: seq<PamMessage>, m: PamMessage)
    ensures Passed(lex, msgs + [m]) == Passed(lex, msgs) + Passed(lex, [m])
    decreases |msgs|
  {
    var all := msgs + [m];
    if msgs == [] {
      assert all == [m];
    } else {
      assert all[0] == msgs[0] && all[1..] == msgs[1..] + [m];
      PassedMore(lex, msgs[1..], m);
    }
  }

  lemma {:induction false} HearPasses(lex: Lexicon, s: Store, msgs: seq<PamMessage>, single: bool)
    ensures Hear(lex, s, msgs, single).notices == Passed(lex, msgs)
    decreases |msgs|
  {
    if msgs != [] {
      var front, m := msgs[..|msgs| - 1], msgs[|msgs| - 1];
      HearPasses(lex, s, front, single);
      PassedMore(lex, front, m);
      assert msgs == front + [m];
      OnePassed(lex, Hear(lex, s, front, single), m, single);
    }
  }

  lemma OnePassed(lex: Lexicon, h: Heard, m: PamMessage, single: bool)
    ensures HearOne(lex, h, m, single).notices == h.notices + Passed(lex, [m])
  {
    assert [m][1..] == [] && h.notices + [] == h.notices;
  }

  /** Every error and information message is passed on once and in order, also when the conversation fails. */
  lemma NoticesArePassedOn(lex: Lexicon, s: Store, t: Turn)
    ensures Conversation(lex, s, t).notices == if 1 <= |t.msgs| <= 32 then Passed(lex, t.msgs) else []
  {
    HearPasses(lex, s, t.msgs, |t.msgs| == 1);
  }
}
