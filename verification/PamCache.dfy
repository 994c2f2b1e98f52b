/** When batching prompts ahead of time gives the same answers as asking for each prompt alone. */
module PamCache {
  import opened Bytes
  import opened AuthMessages
  import opened PamData
  import opened PamStore

  /** An answering process that always gives the same answer to the same type of prompt. */
  type Answers = PromptType -> Blob

  function Filled(ans: Answers, r: Request): Request {
    Request(seq(|r.prompts|, i requires 0 <= i < |r.prompts| => r.prompts[i].(response := ans(r.prompts[i].kind))))
  }

  predicate IsPrompt(m: PamMessage) { m.style in {EchoOff, EchoOn} }

  /** The answer to a request that holds just this prompt. */
  function Alone(lex: Lexicon, ans: Answers, m: PamMessage): Blob {
    Filled(ans, Request([Prompt(Detect(lex, m), m.text, m.style == EchoOff, [])])).prompts[0].response
  }

  /** The lookup of a message leads to no prompt of another type. */
  predicate Unmistaken(lex: Lexicon, s: Store, m: PamMessage) {
    var i := Find(lex, s.prompts, m);
    i == -1 || s.prompts[i].kind == Detect(lex, m)
  }

  /** The lexicon recognises the texts of the predicted prompts as being about passwords. */
  predicate KnowsItsTexts(lex: Lexicon) {
    && lex.password(LOGIN_REQUEST.prompts[1].message)
    && forall i | 0 <= i < 3 :: lex.password(CHANGE_PASS_REQUEST.prompts[i].message)
  }

  /** A stored prompt of a recognised type has a text that does not look unknown. */
  ghost predicate Worded(lex: Lexicon, s: Store) {
    forall i | 0 <= i < |s.prompts| && s.prompts[i].kind !in {UNKNOWN, LOGIN_USER} :: lex.password(s.prompts[i].message)
  }

  /** An information message that replaces the stored prompts while they hold answers. */
  predicate Overwrites(lex: Lexicon, s: Store, m: PamMessage) {
    m.style == TextInfo && lex.changing(m.text) && s.sent
  }

  /** A conversation whose requests get these answers. */
  function Batch(ans: Answers, msgs: seq<PamMessage>): Turn {
    Turn(msgs, r => Filled(ans, r))
  }

  function Single(ans: Answers, m: PamMessage): Turn { Batch(ans, [m]) }

  /** Between one-message conversations: every stored answer is the right one for its type, and no user
      name is stored (it is consumed by the conversation that asked for it). */
  ghost predicate Faithful(lex: Lexicon, s: Store, ans: Answers) {
    && Inv(s)
    && (s.sent ==> forall i | 0 <= i < |s.prompts| :: s.prompts[i].response == ans(s.prompts[i].kind))
    && (forall i | 0 <= i < |s.prompts| :: s.prompts[i].kind != LOGIN_USER)
    && Worded(lex, s)
  }

  /** A message of unknown type is matched by text as well, but no stored prompt can mislead it. */
  lemma FaithfulIsUnmistaken(lex: Lexicon, s: Store, ans: Answers, m: PamMessage)
    requires Faithful(lex, s, ans) && IsPrompt(m)
    ensures Unmistaken(lex, s, m)
  {
  }

  lemma InsertIsWorded(lex: Lexicon, s: Store, ans: Answers, m: PamMessage)
    requires KnowsItsTexts(lex) && Faithful(lex, s, ans) && IsPrompt(m)
    ensures Worded(lex, Insert(lex, s, m, true).0)
  {
    FaithfulIsUnmistaken(lex, s, ans, m);
    assert CHANGE_PASS_NO_OLD_REQUEST.prompts == CHANGE_PASS_REQUEST.prompts[1..];
  }

  lemma OneMessage(lex: Lexicon, s: Store, m: PamMessage)
    ensures Hear(lex, s, [m], true) == HearOne(lex, Heard(s, false, []), m, true)
    ensures var (s', p) := TakeResponse(lex, s, m); Deliver(lex, s, [m]) == (s', [p])
  {
    assert [m][..0] == [];
    assert Hear(lex, s, [m][..0], true) == Heard(s, false, []);
    assert Deliver(lex, s, [m][..0]) == (s, []);
    var p := TakeResponse(lex, s, m).1;
    assert [] + [p] == [p];
  }

  lemma FindIsUnique(lex: Lexicon, ps: seq<Prompt>, m: PamMessage, i: nat)
    requires i < |ps| && Distinct(ps) && Hits(lex, m, ps[i]) && Detect(lex, m) != UNKNOWN
    ensures Find(lex, ps, m) == i
  {
    var j := Find(lex, ps, m);
    assert ps[i].kind == Detect(lex, m) == ps[j].kind;
  }

  /** After an insert that asks, the lookup leads to a prompt of the message's own type. */
  lemma InsertIsUnmistaken(lex: Lexicon, s: Store, m: PamMessage)
    requires Inv(s) && Unmistaken(lex, s, m)
    ensures Unmistaken(lex, Insert(lex, s, m, true).0, m)
  {
    var s' := Insert(lex, s, m, true).0;
    InsertKeeps(lex, s, m, true);
    var i, j := Find(lex, s.prompts, m), Find(lex, s'.prompts, m);
    if i != -1 && !s.sent {
      assert s'.prompts[i] == s.prompts[i].(message := m.text) && Hits(lex, m, s'.prompts[i]);
    }
  }

  lemma FilledMirrors(ans: Answers, s: Store)
    requires Inv(s) && !s.sent && s.prompts != []
    ensures var r := Filled(ans, Request(s.prompts));
      && Mirrors(r, s.prompts) && Complete(s, r) == s.(prompts := r.prompts, sent := true)
      && Inv(Complete(s, r))
  {
    CompleteKeeps(s, Filled(ans, Request(s.prompts)));
  }

  lemma SameLookup(lex: Lexicon, ps: seq<Prompt>, qs: seq<Prompt>, m: PamMessage)
    requires |ps| == |qs| && forall i | 0 <= i < |ps| :: SameQuestion(ps[i], qs[i])
    ensures Find(lex, ps, m) == Find(lex, qs, m)
  {
    var i, j := Find(lex, ps, m), Find(lex, qs, m);
    if i != -1 { assert Hits(lex, m, qs[i]); }
    if j != -1 { assert Hits(lex, m, ps[j]); }
  }

  /** A prompt found in an answered store is answered from it. */
  lemma AnsweredFromStore(lex: Lexicon, s: Store, t: Turn, m: PamMessage)
    requires t.msgs == [m] && s.sent && IsPrompt(m) && Find(lex, s.prompts, m) != -1
    requires s.prompts[Find(lex, s.prompts, m)].Valid()
    ensures var talk := Conversation(lex, s, t);
      && talk.asked == [] && talk.store == TakeResponse(lex, s, m).0
      && talk.outcome == Given([s.prompts[Find(lex, s.prompts, m)]])
  {
    OneMessage(lex, s, m);
  }

  /** A prompt that is not in an answered store goes out in one request, and its answer comes back. */
  lemma AskedTurn(lex: Lexicon, s: Store, t: Turn, m: PamMessage)
    requires t.msgs == [m] && IsPrompt(m) && Insert(lex, s, m, true).1
    requires var h := Insert(lex, s, m, true).0;
      !h.sent && h.prompts != [] && Mirrors(t.peer(Request(h.prompts)), h.prompts)
    ensures var h := Insert(lex, s, m, true).0;
      var c := h.(prompts := t.peer(Request(h.prompts)).prompts, sent := true);
      var (s', p) := TakeResponse(lex, c, m);
      var talk := Conversation(lex, s, t);
      talk.asked == [Request(h.prompts)] && talk.store == s' && talk.outcome == Given([p])
  {
    var h := Insert(lex, s, m, true).0;
    OneMessage(lex, s, m);
    OneMessage(lex, Complete(h, t.peer(Request(h.prompts))), m);
  }

  /** A message that is not a prompt asks for nothing. */
  lemma OtherTalk(lex: Lexicon, s: Store, t: Turn, m: PamMessage)
    requires t.msgs == [m] && !IsPrompt(m)
    ensures var (s', p) := TakeResponse(lex, HearOne(lex, Heard(s, false, []), m, true).store, m);
      var talk := Conversation(lex, s, t);
      talk.asked == [] && talk.store == s' && talk.outcome == Given([p])
  {
    OneMessage(lex, s, m);
    OneMessage(lex, HearOne(lex, Heard(s, false, []), m, true).store, m);
  }

  /** The store after the answers to a request have come back. */
  function Answered(ans: Answers, h: Store): Store {
    h.(prompts := Filled(ans, Request(h.prompts)).prompts, sent := true)
  }

  /** A prompt that is not answered from the store. */
  lemma AskedPrompt(lex: Lexicon, s: Store, ans: Answers, m: PamMessage)
    requires KnowsItsTexts(lex) && Faithful(lex, s, ans) && IsPrompt(m) && Insert(lex, s, m, true).1
    ensures var h := Insert(lex, s, m, true).0;
      var c := Answered(ans, h);
      && Inv(c) && Worded(lex, c) && Find(lex, c.prompts, m) == Find(lex, h.prompts, m)
      && var (s', p) := TakeResponse(lex, c, m);
         var talk := Conversation(lex, s, Single(ans, m));
         talk.store == s' && talk.outcome == Given([p])
  {
    var h := Insert(lex, s, m, true).0;
    InsertKeeps(lex, s, m, true);
    FilledMirrors(ans, h);
    InsertIsWorded(lex, s, ans, m);
    AskedTurn(lex, s, Single(ans, m), m);
    SameLookup(lex, h.prompts, Answered(ans, h).prompts, m);
  }

  /** One prompt in a conversation of its own, from any faithful store. */
  lemma PromptTurn(lex: Lexicon, s: Store, ans: Answers, m: PamMessage)
    requires KnowsItsTexts(lex) && Faithful(lex, s, ans) && IsPrompt(m)
    ensures var talk := Conversation(lex, s, Single(ans, m));
      && talk.outcome.Given? && talk.outcome.prompts[0].response == Alone(lex, ans, m)
      && Faithful(lex, talk.store, ans)
  {
    var (h, asking) := Insert(lex, s, m, true);
    FaithfulIsUnmistaken(lex, s, ans, m);
    InsertKeeps(lex, s, m, true);
    InsertIsUnmistaken(lex, s, m);
    UserNameIsAskedFor(lex, s, ans, m);
    if asking {
      AskedPrompt(lex, s, ans, m);
      AnswerTaken(lex, ans, m, Answered(ans, h));
    } else {
      AnsweredFromStore(lex, s, Single(ans, m), m);
      AnswerTaken(lex, ans, m, h);
    }
  }

  /** A user name can only be in the request if this message asked for it. */
  lemma UserNameIsAskedFor(lex: Lexicon, s: Store, ans: Answers, m: PamMessage)
    requires Faithful(lex, s, ans)
    ensures var h := Insert(lex, s, m, true).0;
      forall j | 0 <= j < |h.prompts| && h.prompts[j].kind == LOGIN_USER :: Detect(lex, m) == LOGIN_USER
  {
    assert forall j | 0 <= j < |s.prompts| :: s.prompts[j].kind != LOGIN_USER;
  }

  /** Taking the message's prompt out of an answered store that has it leaves a faithful store. */
  lemma AnswerTaken(lex: Lexicon, ans: Answers, m: PamMessage, c: Store)
    requires Inv(c) && Worded(lex, c) && c.sent && Find(lex, c.prompts, m) != -1
    requires forall j | 0 <= j < |c.prompts| :: c.prompts[j].response == ans(c.prompts[j].kind)
    requires forall j | 0 <= j < |c.prompts| && c.prompts[j].kind == LOGIN_USER :: Detect(lex, m) == LOGIN_USER
    requires c.prompts[Find(lex, c.prompts, m)].kind == Detect(lex, m)
    ensures var (s', p) := TakeResponse(lex, c, m);
      Faithful(lex, s', ans) && p.response == ans(Detect(lex, m))
  {
    var i := Find(lex, c.prompts, m);
    TakeResponseKeeps(lex, c, m);
    FewerAnswers(lex, c.prompts, i, ans);
    NoUserNameLeft(c.prompts, i);
  }

  lemma NoUserNameLeft(ps: seq<Prompt>, i: nat)
    requires i < |ps| && Distinct(ps)
    requires forall j | 0 <= j < |ps| && ps[j].kind == LOGIN_USER :: ps[i].kind == LOGIN_USER
    ensures var left := ps[..i] + ps[i + 1..];
      forall j | 0 <= j < |left| :: left[j].kind != LOGIN_USER
  {
    var left := ps[..i] + ps[i + 1..];
    assert forall j | 0 <= j < |left| :: left[j] == ps[if j < i then j else j + 1];
  }

  lemma FewerAnswers(lex: Lexicon, ps: seq<Prompt>, i: nat, ans: Answers)
    requires i < |ps|
    requires forall j | 0 <= j < |ps| :: ps[j].response == ans(ps[j].kind)
    requires forall j | 0 <= j < |ps| && ps[j].kind !in {UNKNOWN, LOGIN_USER} :: lex.password(ps[j].message)
    ensures var left := ps[..i] + ps[i + 1..];
      && (forall j | 0 <= j < |left| :: left[j].response == ans(left[j].kind))
      && (forall j | 0 <= j < |left| && left[j].kind !in {UNKNOWN, LOGIN_USER} :: lex.password(left[j].message))
  {
    var left := ps[..i] + ps[i + 1..];
    assert forall j | 0 <= j < |left| :: left[j] == ps[if j < i then j else j + 1];
  }

  /** What is no prompt is looked up like a user name; a store without one is left alone. */
  lemma NothingToTake(lex: Lexicon, s: Store, m: PamMessage)
    requires Inv(s) && !IsPrompt(m) && forall i | 0 <= i < |s.prompts| :: s.prompts[i].kind != LOGIN_USER
    ensures TakeResponse(lex, s, m) == (s, INVALID_PROMPT)
  {
    TakeResponseKeeps(lex, s, m);
    assert Find(lex, s.prompts, m) == -1;
  }

  /** Any other message in a conversation of its own hands out nothing and takes nothing. */
  lemma OtherTurn(lex: Lexicon, s: Store, ans: Answers, m: PamMessage)
    requires KnowsItsTexts(lex) && Faithful(lex, s, ans) && !IsPrompt(m) && !Overwrites(lex, s, m)
    ensures var talk := Conversation(lex, s, Single(ans, m));
      && talk.outcome == Given([INVALID_PROMPT])
      && Faithful(lex, talk.store, ans)
      && (s.sent ==> talk.store == s)
  {
    OtherTalk(lex, s, Single(ans, m), m);
    var h := HearOne(lex, Heard(s, false, []), m, true).store;
    assert Faithful(lex, h, ans) && (s.sent ==> h == s) by {
      HearOneKeeps(lex, Heard(s, false, []), m, true);
    }
    NothingToTake(lex, h, m);
  }

  /** The messages of a run, one conversation each. */
  function CacheAfter(lex: Lexicon, ans: Answers, s: Store, ms: seq<PamMessage>): Store {
    if ms == [] then s
    else Conversation(lex, CacheAfter(lex, ans, s, ms[..|ms| - 1]), Single(ans, ms[|ms| - 1])).store
  }

  ghost predicate Undisturbed(lex: Lexicon, ans: Answers, s: Store, ms: seq<PamMessage>) {
    forall k | 0 <= k < |ms| && !IsPrompt(ms[k]) :: !Overwrites(lex, CacheAfter(lex, ans, s, ms[..k]), ms[k])
  }

  /** Every prompt of a run gets the answer it would get alone, and every other message gets nothing. */
  ghost predicate Transparent(lex: Lexicon, ans: Answers, s: Store, ms: seq<PamMessage>) {
    forall k | 0 <= k < |ms| ::
      var talk := Conversation(lex, CacheAfter(lex, ans, s, ms[..k]), Single(ans, ms[k]));
      && talk.outcome.Given?
      && talk.outcome.prompts[0].response == if IsPrompt(ms[k]) then Alone(lex, ans, ms[k]) else []
  }

  lemma UndisturbedPrefix(lex: Lexicon, ans: Answers, s: Store, ms: seq<PamMessage>, n: nat)
    requires Undisturbed(lex, ans, s, ms) && n <= |ms|
    ensures Undisturbed(lex, ans, s, ms[..n])
  {
    forall k | 0 <= k < n ensures ms[..n][..k] == ms[..k] {
    }
  }

  lemma {:induction false} CacheStaysFaithful(lex: Lexicon, ans: Answers, s: Store, ms: seq<PamMessage>)
    requires KnowsItsTexts(lex) && Faithful(lex, s, ans) && Undisturbed(lex, ans, s, ms)
    ensures Faithful(lex, CacheAfter(lex, ans, s, ms), ans)
  {
    if ms != [] {
      var n := |ms| - 1;
      UndisturbedPrefix(lex, ans, s, ms, n);
      CacheStaysFaithful(lex, ans, s, ms[..n]);
      if IsPrompt(ms[n]) {
        PromptTurn(lex, CacheAfter(lex, ans, s, ms[..n]), ans, ms[n]);
      } else {
        OtherTurn(lex, CacheAfter(lex, ans, s, ms[..n]), ans, ms[n]);
      }
    }
  }

  /** The cache cannot be told from asking each time, from the start or any other faithful store. */
  lemma CacheIsTransparent(lex: Lexicon, ans: Answers, s: Store, ms: seq<PamMessage>)
    requires KnowsItsTexts(lex) && Faithful(lex, s, ans) && Undisturbed(lex, ans, s, ms)
    ensures Transparent(lex, ans, s, ms)
    ensures Faithful(lex, EMPTY_STORE, ans)
  {
    forall k | 0 <= k < |ms|
      ensures var talk := Conversation(lex, CacheAfter(lex, ans, s, ms[..k]), Single(ans, ms[k]));
        && talk.outcome.Given?
        && talk.outcome.prompts[0].response == if IsPrompt(ms[k]) then Alone(lex, ans, ms[k]) else []
    {
      UndisturbedPrefix(lex, ans, s, ms, k);
      CacheStaysFaithful(lex, ans, s, ms[..k]);
      if IsPrompt(ms[k]) {
        PromptTurn(lex, CacheAfter(lex, ans, s, ms[..k]), ans, ms[k]);
      } else {
        OtherTurn(lex, CacheAfter(lex, ans, s, ms[..k]), ans, ms[k]);
      }
    }
  }

  // ----------------------------------------------------- where it fails

  /** The store after an overwriting message claims to have been answered, with three empty answers. */
  lemma OverwrittenStore(lex: Lexicon, s: Store, ans: Answers, info: PamMessage)
    requires Faithful(lex, s, ans) && Overwrites(lex, s, info)
    ensures Conversation(lex, s, Single(ans, info)).store == s.(prompts := CHANGE_PASS_REQUEST.prompts)
  {
    OtherTalk(lex, s, Single(ans, info), info);
    HandleInfoKeeps(lex, s, info, true);
    TakeResponseKeeps(lex, HandleInfo(lex, s, info, true).0, info);
  }

  /** The next prompt for a new password is then answered with nothing, without asking anyone. */
  lemma OverwriteAnswersNothing(lex: Lexicon, s: Store, ans: Answers, info: PamMessage, m: PamMessage)
    requires Faithful(lex, s, ans) && Overwrites(lex, s, info)
    requires IsPrompt(m) && Detect(lex, m) in {CHANGE_CURRENT, CHANGE_NEW, CHANGE_REPEAT}
    ensures var talk := Conversation(lex, Conversation(lex, s, Single(ans, info)).store, Single(ans, m));
      talk.outcome.Given? && talk.asked == [] && talk.outcome.prompts[0].response == []
  {
    OverwrittenStore(lex, s, ans, info);
    var o := s.(prompts := CHANGE_PASS_REQUEST.prompts);
    var kind := Detect(lex, m);
    var i := if kind == CHANGE_CURRENT then 0 else if kind == CHANGE_NEW then 1 else 2;
    assert Hits(lex, m, o.prompts[i]) && Distinct(o.prompts);
    FindIsUnique(lex, o.prompts, m, i);
    AnsweredFromStore(lex, o, Single(ans, m), m);
  }

  /** From a faithful store, an information or error message leaves the cache transparent in every later
      undisturbed run exactly when it does not overwrite stored answers. */
  lemma TransparentIffNotOverwritten(lex: Lexicon, s: Store, ans: Answers, info: PamMessage, probe: PamMessage)
    requires KnowsItsTexts(lex) && Faithful(lex, s, ans) && !IsPrompt(info)
    requires IsPrompt(probe) && Detect(lex, probe) == CHANGE_NEW && ans(CHANGE_NEW) != []
    ensures
      var s' := Conversation(lex, s, Single(ans, info)).store;
      (forall ms | Undisturbed(lex, ans, s', ms) :: Transparent(lex, ans, s', ms)) <==> !Overwrites(lex, s, info)
  {
    var s' := Conversation(lex, s, Single(ans, info)).store;
    if Overwrites(lex, s, info) {
      OverwriteAnswersNothing(lex, s, ans, info, probe);
      var ms := [probe];
      assert ms[..0] == [] && CacheAfter(lex, ans, s', ms[..0]) == s';
      assert Undisturbed(lex, ans, s', ms) && !Transparent(lex, ans, s', ms) by {
        assert IsPrompt(ms[0]) && Alone(lex, ans, ms[0]) == ans(CHANGE_NEW);
      }
    } else {
      OtherTurn(lex, s, ans, info);
      forall ms | Undisturbed(lex, ans, s', ms) ensures Transparent(lex, ans, s', ms) {
        CacheIsTransparent(lex, ans, s', ms);
      }
    }
  }

  /** One prompt for a new password leaves the answer to its repetition stored. */
  lemma RepetitionIsStored(lex: Lexicon, ans: Answers, m: PamMessage)
    requires KnowsItsTexts(lex) && IsPrompt(m) && Detect(lex, m) == CHANGE_NEW
    ensures var s := CacheAfter(lex, ans, EMPTY_STORE, [m]);
      s.sent && Faithful(lex, s, ans)
  {
    PromptTurn(lex, EMPTY_STORE, ans, m);
    assert [m][..0] == [];
    var h := Store(false, CHANGE_PASS_NO_OLD_REQUEST.prompts, INVALID_PROMPT);
    assert Insert(lex, EMPTY_STORE, m, true) == (h, true) by {
      assert Find(lex, [], m) == -1;
    }
    AskedPrompt(lex, EMPTY_STORE, ans, m);
    TwoWithoutFirst(lex, ans, h, m);
  }

  lemma TwoWithoutFirst(lex: Lexicon, ans: Answers, h: Store, m: PamMessage)
    requires |h.prompts| == 2 && h.prompts[0].kind == Detect(lex, m)
    ensures TakeResponse(lex, Answered(ans, h), m).0.sent
  {
    var c := Answered(ans, h).prompts;
    assert Find(lex, c, m) == 0 && RemoveOne(c, c[0]) == [c[1]];
  }

  /** So the failure happens: a prompt for a new password, the information message, and its repetition,
      which is answered with nothing. */
  lemma OverwriteHappens(lex: Lexicon, ans: Answers, m: PamMessage, info: PamMessage, again: PamMessage)
    requires KnowsItsTexts(lex)
    requires IsPrompt(m) && Detect(lex, m) == CHANGE_NEW && IsPrompt(again) && Detect(lex, again) == CHANGE_REPEAT
    requires info.style == TextInfo && lex.changing(info.text)
    ensures var talk := Conversation(lex, CacheAfter(lex, ans, EMPTY_STORE, [m, info]), Single(ans, again));
      talk.outcome.Given? && talk.asked == [] && talk.outcome.prompts[0].response == []
    ensures ans(CHANGE_REPEAT) != [] ==> !Transparent(lex, ans, EMPTY_STORE, [m, info, again])
  {
    RepetitionIsStored(lex, ans, m);
    var ms, s := [m, info, again], CacheAfter(lex, ans, EMPTY_STORE, [m]);
    OverwriteAnswersNothing(lex, s, ans, info, again);
    assert [m, info][..1] == [m] && ms[..2] == [m, info];
    assert CacheAfter(lex, ans, EMPTY_STORE, [m, info]) == Conversation(lex, s, Single(ans, info)).store;
    assert Alone(lex, ans, ms[2]) == ans(CHANGE_REPEAT);
  }
}
