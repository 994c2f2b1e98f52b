/** Conversations of several messages at once, from whatever earlier conversations have left stored: each answer goes
    to the first message of its class, prompt or not. */
module PamBatch {
  import opened Bytes
  import opened AuthMessages
  import opened PamData
  import opened PamStore
  import opened PamCache

  ghost function Kinds(ps: seq<Prompt>): set<PromptType> {
    set i | 0 <= i < |ps| :: ps[i].kind
  }

  /** The classes that some prompt of the list belongs to. */
  ghost function AskedKinds(lex: Lexicon, msgs: seq<PamMessage>): set<PromptType> {
    set i | 0 <= i < |msgs| && IsPrompt(msgs[i]) :: Detect(lex, msgs[i])
  }

  /** The classes of all messages. What is no prompt counts as a prompt for the user name. */
  ghost function SeenKinds(lex: Lexicon, msgs: seq<PamMessage>): set<PromptType> {
    set i | 0 <= i < |msgs| :: Detect(lex, msgs[i])
  }

  /** Some prompt up to message j is of a class outside the given ones. */
  ghost predicate Renewed(lex: Lexicon, known: set<PromptType>, msgs: seq<PamMessage>, j: int) {
    exists i | 0 <= i <= j && i < |msgs| :: IsPrompt(msgs[i]) && Detect(lex, msgs[i]) !in known
  }

  /** The classes of the prompts from the first new one on, among the first n messages. */
  ghost function LateKinds(lex: Lexicon, known: set<PromptType>, msgs: seq<PamMessage>, n: nat): set<PromptType>
    requires n <= |msgs|
  {
    set j | 0 <= j < n && IsPrompt(msgs[j]) && Renewed(lex, known, msgs, j) :: Detect(lex, msgs[j])
  }

  /** No prompt of unknown type has the text of a prompt of another type. */
  ghost predicate NoTextClash(lex: Lexicon, msgs: seq<PamMessage>) {
    forall i, j | 0 <= i < |msgs| && 0 <= j < |msgs| && IsPrompt(msgs[i]) && IsPrompt(msgs[j]) ::
      Detect(lex, msgs[i]) == UNKNOWN && Detect(lex, msgs[j]) != UNKNOWN ==> msgs[i].text != msgs[j].text
  }

  /** Nor the text of a stored one. */
  ghost predicate Clear(lex: Lexicon, ps: seq<Prompt>, msgs: seq<PamMessage>) {
    forall i, k | 0 <= i < |ps| && 0 <= k < |msgs| ::
      Detect(lex, msgs[k]) == UNKNOWN && ps[i].kind != UNKNOWN ==> ps[i].message != msgs[k].text
  }

  /** What every store of these conversations satisfies. */
  ghost predicate Good(lex: Lexicon, s: Store, msgs: seq<PamMessage>) {
    Inv(s) && Worded(lex, s) && Clear(lex, s.prompts, msgs)
  }

  lemma FaithfulIsGood(lex: Lexicon, s: Store, ans: Answers, msgs: seq<PamMessage>)
    requires Faithful(lex, s, ans)
    ensures Good(lex, s, msgs) && LOGIN_USER !in Kinds(s.prompts)
  {
  }

  /** Without clashes a lookup goes by type alone. */
  lemma FoundByKind(lex: Lexicon, ps: seq<Prompt>, msgs: seq<PamMessage>, k: nat)
    requires k < |msgs| && Clear(lex, ps, msgs)
    ensures var i := Find(lex, ps, msgs[k]);
      if i == -1 then Detect(lex, msgs[k]) !in Kinds(ps)
      else ps[i].kind == Detect(lex, msgs[k]) && Detect(lex, msgs[k]) in Kinds(ps)
  {
    if Find(lex, ps, msgs[k]) == -1 {
      forall j | 0 <= j < |ps| ensures ps[j].kind != Detect(lex, msgs[k]) {
        assert !Hits(lex, msgs[k], ps[j]);
      }
    }
  }

  // ------------------------------------------------------------- the first loop

  /** A message of a class already stored only replaces the text of its prompt. */
  lemma ReplaceKeeps(lex: Lexicon, ps: seq<Prompt>, i: nat, msgs: seq<PamMessage>, n: nat)
    requires i < |ps| && n < |msgs| && Clear(lex, ps, msgs) && NoTextClash(lex, msgs)
    requires IsPrompt(msgs[n]) && ps[i].kind == Detect(lex, msgs[n])
    ensures var qs := ps[i := ps[i].(message := msgs[n].text)];
      Kinds(qs) == Kinds(ps) && Clear(lex, qs, msgs)
  {
    var qs := ps[i := ps[i].(message := msgs[n].text)];
    assert forall j | 0 <= j < |ps| :: qs[j].kind == ps[j].kind;
  }

  /** Any other is appended. */
  lemma AppendKeeps(lex: Lexicon, ps: seq<Prompt>, msgs: seq<PamMessage>, n: nat)
    requires n < |msgs| && Clear(lex, ps, msgs) && NoTextClash(lex, msgs) && IsPrompt(msgs[n])
    ensures var qs := ps + [AsItComes(lex, msgs[n])];
      Kinds(qs) == Kinds(ps) + {Detect(lex, msgs[n])} && Clear(lex, qs, msgs)
  {
    var qs := ps + [AsItComes(lex, msgs[n])];
    assert qs[|ps|].kind == Detect(lex, msgs[n]);
    assert forall j | 0 <= j < |ps| :: qs[j] == ps[j];
  }

  /** How a prompt changes a store: an answered one that knows its class stays; an answered one that does not is
      replaced; an unanswered one grows. */
  ghost predicate Took(lex: Lexicon, s: Store, s': Store, asking: bool, msgs: seq<PamMessage>, n: nat)
    requires n < |msgs|
  {
    var kind := Detect(lex, msgs[n]);
    && Good(lex, s', msgs)
    && if s.sent && kind in Kinds(s.prompts) then !asking && s' == s
       else asking && !s'.sent && s'.prompts != []
            && Kinds(s'.prompts) == (if s.sent then {} else Kinds(s.prompts)) + {kind}
  }

  lemma InsertBatch(lex: Lexicon, s: Store, msgs: seq<PamMessage>, n: nat)
    requires n < |msgs| && Good(lex, s, msgs) && NoTextClash(lex, msgs) && IsPrompt(msgs[n])
    ensures var (s', asking) := Insert(lex, s, msgs[n], false); Took(lex, s, s', asking, msgs, n)
  {
    InsertKeeps(lex, s, msgs[n], false);
    FoundByKind(lex, s.prompts, msgs, n);
    var i := Find(lex, s.prompts, msgs[n]);
    if i == -1 {
      var before := if s.sent then [] else s.prompts;
      AppendKeeps(lex, before, msgs, n);
      assert Kinds(before) == if s.sent then {} else Kinds(s.prompts);
    } else {
      ReplaceKeeps(lex, s.prompts, i, msgs, n);
    }
  }

  lemma KindsOfMore(lex: Lexicon, msgs: seq<PamMessage>, n: nat)
    requires n < |msgs|
    ensures AskedKinds(lex, msgs[..n + 1])
         == AskedKinds(lex, msgs[..n]) + (if IsPrompt(msgs[n]) then {Detect(lex, msgs[n])} else {})
    ensures SeenKinds(lex, msgs[..n + 1]) == SeenKinds(lex, msgs[..n]) + {Detect(lex, msgs[n])}
  {
    assert forall i | 0 <= i < n :: msgs[..n + 1][i] == msgs[..n][i] == msgs[i];
    assert msgs[..n + 1][n] == msgs[n];
  }

  lemma LateOfMore(lex: Lexicon, known: set<PromptType>, msgs: seq<PamMessage>, n: nat)
    requires n < |msgs|
    ensures Renewed(lex, known, msgs, n)
      <==> Renewed(lex, known, msgs, n - 1) || (IsPrompt(msgs[n]) && Detect(lex, msgs[n]) !in known)
    ensures LateKinds(lex, known, msgs, n + 1) == LateKinds(lex, known, msgs, n)
      + (if IsPrompt(msgs[n]) && Renewed(lex, known, msgs, n) then {Detect(lex, msgs[n])} else {})
    ensures !Renewed(lex, known, msgs, n - 1) ==> LateKinds(lex, known, msgs, n) == {}
  {
  }

  /** What the first loop has made of a store after n messages. */
  ghost predicate Heeded(lex: Lexicon, s: Store, h: Heard, msgs: seq<PamMessage>, n: nat)
    requires n <= |msgs|
  {
    var known := Kinds(s.prompts);
    && Good(lex, h.store, msgs)
    && if s.sent then
         if Renewed(lex, known, msgs, n - 1) then
           h.newRequest && !h.store.sent && h.store.prompts != []
           && Kinds(h.store.prompts) == LateKinds(lex, known, msgs, n)
         else !h.newRequest && h.store == s
       else
         && !h.store.sent && Kinds(h.store.prompts) == known + AskedKinds(lex, msgs[..n])
         && (h.newRequest <==> AskedKinds(lex, msgs[..n]) != {})
         && (!h.newRequest ==> h.store == s) && (h.newRequest ==> h.store.prompts != [])
  }

  /** Only prompts touch store and flag in a conversation of several messages. */
  lemma HeardBatch(lex: Lexicon, h: Heard, m: PamMessage)
    ensures var h' := HearOne(lex, h, m, false);
      if IsPrompt(m) then (h'.store, h'.newRequest) == Insert(lex, h.store, m, false)
      else h'.store == h.store && h'.newRequest == h.newRequest
  {
  }

  lemma HeedPrompt(lex: Lexicon, s: Store, h: Heard, h': Heard, msgs: seq<PamMessage>, n: nat)
    requires n < |msgs| && NoTextClash(lex, msgs) && Heeded(lex, s, h, msgs, n) && IsPrompt(msgs[n])
    requires (h'.store, h'.newRequest) == Insert(lex, h.store, msgs[n], false)
    ensures Heeded(lex, s, h', msgs, n + 1)
  {
    InsertBatch(lex, h.store, msgs, n);
    if s.sent { HeedAnswered(lex, s, h, h', msgs, n); } else { HeedUnanswered(lex, s, h, h', msgs, n); }
  }

  lemma HeedAnswered(lex: Lexicon, s: Store, h: Heard, h': Heard, msgs: seq<PamMessage>, n: nat)
    requires n < |msgs| && Heeded(lex, s, h, msgs, n) && IsPrompt(msgs[n])
    requires s.sent && Took(lex, h.store, h'.store, h'.newRequest, msgs, n)
    ensures Heeded(lex, s, h', msgs, n + 1)
  {
    LateOfMore(lex, Kinds(s.prompts), msgs, n);
  }

  lemma HeedUnanswered(lex: Lexicon, s: Store, h: Heard, h': Heard, msgs: seq<PamMessage>, n: nat)
    requires n < |msgs| && Heeded(lex, s, h, msgs, n) && IsPrompt(msgs[n])
    requires !s.sent && Took(lex, h.store, h'.store, h'.newRequest, msgs, n)
    ensures Heeded(lex, s, h', msgs, n + 1)
  {
    KindsOfMore(lex, msgs, n);
  }

  lemma HeedOther(lex: Lexicon, s: Store, h: Heard, h': Heard, msgs: seq<PamMessage>, n: nat)
    requires n < |msgs| && Heeded(lex, s, h, msgs, n) && !IsPrompt(msgs[n])
    requires h'.store == h.store && h'.newRequest == h.newRequest
    ensures Heeded(lex, s, h', msgs, n + 1)
  {
    KindsOfMore(lex, msgs, n);
    LateOfMore(lex, Kinds(s.prompts), msgs, n);
  }

  lemma {:induction false} HearHeeds(lex: Lexicon, s: Store, msgs: seq<PamMessage>, n: nat)
    requires n <= |msgs| && Good(lex, s, msgs) && NoTextClash(lex, msgs)
    ensures Heeded(lex, s, Hear(lex, s, msgs[..n], false), msgs, n)
  {
    if n > 0 {
      assert msgs[..n][..n - 1] == msgs[..n - 1];
      HearHeeds(lex, s, msgs, n - 1);
      var h := Hear(lex, s, msgs[..n - 1], false);
      var h' := HearOne(lex, h, msgs[n - 1], false);
      HeardBatch(lex, h, msgs[n - 1]);
      if IsPrompt(msgs[n - 1]) { HeedPrompt(lex, s, h, h', msgs, n - 1); } else { HeedOther(lex, s, h, h', msgs, n - 1); }
    }
  }

  // ------------------------------------------------------------ the second loop

  /** The classes with an answer for this conversation. An answered store serves as long as it knows every class
      asked for; the first class it does not know costs it all its answers, and only what is asked from there on is
      requested. An unanswered store is requested together with everything asked. */
  ghost function Available(lex: Lexicon, s: Store, msgs: seq<PamMessage>): set<PromptType> {
    var known, asked := Kinds(s.prompts), AskedKinds(lex, msgs);
    if s.sent then (if asked <= known then known else LateKinds(lex, known, msgs, |msgs|))
    else if asked == {} then {}
    else known + asked
  }

  /** The response a message gets: its class's answer if there is one and no earlier message is of that class. */
  ghost function Portion(lex: Lexicon, ans: Answers, available: set<PromptType>, msgs: seq<PamMessage>, i: nat): Blob
    requires i < |msgs|
  {
    var kind := Detect(lex, msgs[i]);
    if kind in available && kind !in SeenKinds(lex, msgs[..i]) then ans(kind) else []
  }

  ghost function Share(lex: Lexicon, ans: Answers, s: Store, msgs: seq<PamMessage>, i: nat): Blob
    requires i < |msgs|
  {
    Portion(lex, ans, Available(lex, s, msgs), msgs, i)
  }

  /** What the second loop has left after n messages, of the classes available at its start. */
  ghost predicate Remaining(
    lex: Lexicon, ans: Answers, available: set<PromptType>, s: Store, msgs: seq<PamMessage>, n: nat)
    requires n <= |msgs|
  {
    && Good(lex, s, msgs)
    && Kinds(s.prompts) == available - SeenKinds(lex, msgs[..n])
    && (s.sent <==> s.prompts != [])
    && (forall i | 0 <= i < |s.prompts| :: s.prompts[i].response == ans(s.prompts[i].kind))
  }

  lemma KindsWithoutOne(ps: seq<Prompt>, i: nat)
    requires i < |ps| && Distinct(ps)
    ensures Kinds(ps[..i] + ps[i + 1..]) == Kinds(ps) - {ps[i].kind}
  {
    var left := ps[..i] + ps[i + 1..];
    assert forall j | 0 <= j < |left| :: left[j] == ps[if j < i then j else j + 1];
    forall j | 0 <= j < |ps| && j != i ensures ps[j].kind in Kinds(left) {
      assert left[if j < i then j else j - 1] == ps[j];
    }
  }

  lemma FewerPrompts(lex: Lexicon, ans: Answers, ps: seq<Prompt>, i: nat, msgs: seq<PamMessage>)
    requires i < |ps| && Clear(lex, ps, msgs)
    ensures Clear(lex, ps[..i] + ps[i + 1..], msgs)
  {
    var left := ps[..i] + ps[i + 1..];
    assert forall j | 0 <= j < |left| :: left[j] == ps[if j < i then j else j + 1];
  }

  lemma TakeNothing(
    lex: Lexicon, ans: Answers, available: set<PromptType>, s: Store, msgs: seq<PamMessage>, n: nat)
    requires n < |msgs| && Remaining(lex, ans, available, s, msgs, n) && Detect(lex, msgs[n]) !in Kinds(s.prompts)
    ensures Remaining(lex, ans, available, s, msgs, n + 1)
    ensures Detect(lex, msgs[n]) !in available || Detect(lex, msgs[n]) in SeenKinds(lex, msgs[..n])
  {
    var seen, kind := SeenKinds(lex, msgs[..n]), Detect(lex, msgs[n]);
    assert available - (seen + {kind}) == available - seen;
    KindsOfMore(lex, msgs, n);
  }

  lemma TakeOne(
    lex: Lexicon, ans: Answers, available: set<PromptType>, s: Store, msgs: seq<PamMessage>, n: nat, i: nat, s': Store)
    requires n < |msgs| && Remaining(lex, ans, available, s, msgs, n)
    requires i < |s.prompts| && s.prompts[i].kind == Detect(lex, msgs[n])
    requires Inv(s') && s'.prompts == s.prompts[..i] + s.prompts[i + 1..] && s'.sent == (s.sent && s'.prompts != [])
    ensures Remaining(lex, ans, available, s', msgs, n + 1)
    ensures s.prompts[i].response == ans(Detect(lex, msgs[n]))
    ensures Detect(lex, msgs[n]) in available && Detect(lex, msgs[n]) !in SeenKinds(lex, msgs[..n])
  {
    var seen, kind := SeenKinds(lex, msgs[..n]), Detect(lex, msgs[n]);
    assert kind in Kinds(s.prompts);
    assert available - (seen + {kind}) == available - seen - {kind};
    KindsOfMore(lex, msgs, n);
    KindsWithoutOne(s.prompts, i);
    FewerAnswers(lex, s.prompts, i, ans);
    FewerPrompts(lex, ans, s.prompts, i, msgs);
  }

  lemma TakeShare(
    lex: Lexicon, ans: Answers, available: set<PromptType>, s: Store, msgs: seq<PamMessage>, n: nat)
    requires n < |msgs| && Remaining(lex, ans, available, s, msgs, n)
    ensures var (s', p) := TakeResponse(lex, s, msgs[n]);
      Remaining(lex, ans, available, s', msgs, n + 1) && p.response == Portion(lex, ans, available, msgs, n)
  {
    var i := Find(lex, s.prompts, msgs[n]);
    TakeResponseKeeps(lex, s, msgs[n]);
    FoundByKind(lex, s.prompts, msgs, n);
    if i == -1 {
      TakeNothing(lex, ans, available, s, msgs, n);
    } else {
      TakeOne(lex, ans, available, s, msgs, n, i, TakeResponse(lex, s, msgs[n]).0);
    }
  }

  lemma DeliverMore(lex: Lexicon, s: Store, msgs: seq<PamMessage>, n: nat)
    requires n < |msgs|
    ensures var (mid, qs) := Deliver(lex, s, msgs[..n]);
      var (s', p) := TakeResponse(lex, mid, msgs[n]);
      Deliver(lex, s, msgs[..n + 1]) == (s', qs + [p])
  {
    assert msgs[..n + 1][..n] == msgs[..n];
  }

  ghost predicate Shared(
    lex: Lexicon, ans: Answers, available: set<PromptType>, msgs: seq<PamMessage>, ps: seq<Prompt>)
    requires |ps| <= |msgs|
  {
    forall i | 0 <= i < |ps| :: ps[i].response == Portion(lex, ans, available, msgs, i)
  }

  lemma SharedMore(
    lex: Lexicon, ans: Answers, available: set<PromptType>, msgs: seq<PamMessage>, ps: seq<Prompt>, p: Prompt)
    requires |ps| < |msgs| && Shared(lex, ans, available, msgs, ps)
    requires p.response == Portion(lex, ans, available, msgs, |ps|)
    ensures Shared(lex, ans, available, msgs, ps + [p])
  {
  }

  lemma {:induction false} DeliverShares(
    lex: Lexicon, ans: Answers, available: set<PromptType>, s: Store, msgs: seq<PamMessage>, n: nat)
    requires n <= |msgs| && Remaining(lex, ans, available, s, msgs, 0)
    ensures var (s', ps) := Deliver(lex, s, msgs[..n]);
      Remaining(lex, ans, available, s', msgs, n) && Shared(lex, ans, available, msgs, ps)
  {
    if n == 0 {
      assert msgs[..0] == [];
    } else {
      DeliverShares(lex, ans, available, s, msgs, n - 1);
      DeliverMore(lex, s, msgs, n - 1);
      var (mid, qs) := Deliver(lex, s, msgs[..n - 1]);
      TakeShare(lex, ans, available, mid, msgs, n - 1);
      SharedMore(lex, ans, available, msgs, qs, TakeResponse(lex, mid, msgs[n - 1]).1);
    }
  }

  /** A store without a user name has nothing for messages that are no prompts. */
  lemma {:induction false} DeliverNothing(lex: Lexicon, s: Store, msgs: seq<PamMessage>)
    requires Inv(s) && LOGIN_USER !in Kinds(s.prompts) && forall i | 0 <= i < |msgs| :: !IsPrompt(msgs[i])
    ensures var (s', ps) := Deliver(lex, s, msgs); s' == s && forall i | 0 <= i < |msgs| :: ps[i].response == []
  {
    if msgs != [] {
      var m := msgs[|msgs| - 1];
      DeliverNothing(lex, s, msgs[..|msgs| - 1]);
      assert forall i | 0 <= i < |s.prompts| :: s.prompts[i].kind in Kinds(s.prompts);
      NothingToTake(lex, s, m);
    }
  }

  // ------------------------------------------------------------ the conversation

  lemma AskedUnlessRenewed(lex: Lexicon, known: set<PromptType>, msgs: seq<PamMessage>)
    ensures AskedKinds(lex, msgs) <= known <==> !Renewed(lex, known, msgs, |msgs| - 1)
  {
    if Renewed(lex, known, msgs, |msgs| - 1) {
      var i :| 0 <= i < |msgs| && IsPrompt(msgs[i]) && Detect(lex, msgs[i]) !in known;
      assert Detect(lex, msgs[i]) in AskedKinds(lex, msgs);
    }
  }

  /** The store that the second loop works on, and the answers it has. */
  lemma AnswersAtHand(lex: Lexicon, ans: Answers, s: Store, h: Heard, msgs: seq<PamMessage>)
    requires Faithful(lex, s, ans) && Heeded(lex, s, h, msgs, |msgs|) && (h.newRequest || s.sent)
    ensures var c := if h.newRequest then Answered(ans, h.store) else h.store;
      Remaining(lex, ans, Available(lex, s, msgs), c, msgs, 0)
  {
    assert msgs[..|msgs|] == msgs && msgs[..0] == [];
    AskedUnlessRenewed(lex, Kinds(s.prompts), msgs);
    if h.newRequest {
      FilledMirrors(ans, h.store);
      var c := Answered(ans, h.store);
      assert forall i | 0 <= i < |c.prompts| :: SameQuestion(c.prompts[i], h.store.prompts[i]);
      assert Kinds(c.prompts) == Kinds(h.store.prompts);
    }
  }

  /** What is left over is again a faithful store. */
  lemma LeftoverIsFaithful(lex: Lexicon, ans: Answers, s: Store, c: Store, msgs: seq<PamMessage>)
    requires Faithful(lex, s, ans) && Remaining(lex, ans, Available(lex, s, msgs), c, msgs, |msgs|)
    ensures Faithful(lex, c, ans) && Kinds(c.prompts) == Available(lex, s, msgs) - SeenKinds(lex, msgs)
  {
    assert msgs[..|msgs|] == msgs;
    FaithfulIsGood(lex, s, ans, msgs);
    assert AskedKinds(lex, msgs) <= SeenKinds(lex, msgs);
    assert LateKinds(lex, Kinds(s.prompts), msgs, |msgs|) <= AskedKinds(lex, msgs);
    assert LOGIN_USER !in Kinds(c.prompts);
    assert forall i | 0 <= i < |c.prompts| :: c.prompts[i].kind in Kinds(c.prompts);
  }

  /** What a conversation of several messages leaves in the store. */
  ghost predicate Leaves(lex: Lexicon, s: Store, msgs: seq<PamMessage>, s': Store) {
    if !s.sent && AskedKinds(lex, msgs) == {} then s' == s
    else Kinds(s'.prompts) == Available(lex, s, msgs) - SeenKinds(lex, msgs) && (s'.sent <==> s'.prompts != [])
  }

  /** In a conversation of several messages, from any faithful store, each answer goes to the first message of its
      class, and what is left over is the answers to the classes that no message was of. */
  lemma AnswersGoToTheFirst(lex: Lexicon, ans: Answers, s: Store, msgs: seq<PamMessage>)
    requires 2 <= |msgs| <= PAM_MAX_NUM_MSG && NoTextClash(lex, msgs) && Faithful(lex, s, ans)
    ensures var talk := Conversation(lex, s, Batch(ans, msgs));
      && Faithful(lex, talk.store, ans) && Leaves(lex, s, msgs, talk.store)
      && talk.outcome.Given? && |talk.outcome.prompts| == |msgs|
      && forall i | 0 <= i < |msgs| :: talk.outcome.prompts[i].response == Share(lex, ans, s, msgs, i)
  {
    assert msgs[..|msgs|] == msgs;
    FaithfulIsGood(lex, s, ans, msgs);
    HearHeeds(lex, s, msgs, |msgs|);
    var h := Hear(lex, s, msgs, false);
    if h.newRequest || s.sent {
      var c := if h.newRequest then Answered(ans, h.store) else h.store;
      BatchTalk(lex, ans, s, msgs, h);
      AnswersAtHand(lex, ans, s, h, msgs);
      DeliverShares(lex, ans, Available(lex, s, msgs), c, msgs, |msgs|);
      LeftoverIsFaithful(lex, ans, s, Deliver(lex, c, msgs).0, msgs);
    } else {
      NothingAsked(lex, msgs);
      BatchTalk(lex, ans, s, msgs, h);
      DeliverNothing(lex, s, msgs);
    }
  }

  lemma NothingAsked(lex: Lexicon, msgs: seq<PamMessage>)
    requires AskedKinds(lex, msgs) == {}
    ensures forall i | 0 <= i < |msgs| :: !IsPrompt(msgs[i])
  {
    forall i | 0 <= i < |msgs| && IsPrompt(msgs[i]) ensures Detect(lex, msgs[i]) in AskedKinds(lex, msgs) {
    }
  }

  lemma BatchTalk(lex: Lexicon, ans: Answers, s: Store, msgs: seq<PamMessage>, h: Heard)
    requires 2 <= |msgs| <= PAM_MAX_NUM_MSG && h == Hear(lex, s, msgs, false)
    requires Inv(h.store) && (h.newRequest ==> !h.store.sent && h.store.prompts != [])
    ensures var c := if h.newRequest then Answered(ans, h.store) else h.store;
      var (s', ps) := Deliver(lex, c, msgs);
      var talk := Conversation(lex, s, Batch(ans, msgs));
      talk.store == s' && talk.outcome == Given(ps)
  {
    if h.newRequest { FilledMirrors(ans, h.store); }
  }

  // --------------------------------------------------------- who gets an answer

  /** The first message that is not a hidden prompt is no prompt at all, and a prompt for the user name follows. */
  ghost predicate NoticeBeforeUserName(msgs: seq<PamMessage>) {
    exists i, k | 0 <= i < k < |msgs| ::
      && !IsPrompt(msgs[i]) && msgs[k].style == EchoOn
      && forall j | 0 <= j < i :: msgs[j].style == EchoOff
  }

  ghost predicate NoticeTakesAnswer(msgs: seq<PamMessage>, given: seq<Prompt>)
    requires |given| == |msgs|
  {
    exists i | 0 <= i < |msgs| :: !IsPrompt(msgs[i]) && given[i].response != []
  }

  /** Some message that is no prompt is handed an answer, always the user name, exactly in such conversations,
      whatever was stored before. */
  lemma InfoTakesTheUserName(lex: Lexicon, ans: Answers, s: Store, msgs: seq<PamMessage>)
    requires 2 <= |msgs| <= PAM_MAX_NUM_MSG && NoTextClash(lex, msgs) && Faithful(lex, s, ans)
    requires ans(LOGIN_USER) != []
    ensures var talk := Conversation(lex, s, Batch(ans, msgs));
      && talk.outcome.Given? && |talk.outcome.prompts| == |msgs|
      && (NoticeTakesAnswer(msgs, talk.outcome.prompts) <==> NoticeBeforeUserName(msgs))
      && forall i | 0 <= i < |msgs| && !IsPrompt(msgs[i]) ::
           talk.outcome.prompts[i].response == [] || talk.outcome.prompts[i].response == ans(LOGIN_USER)
  {
    AnswersGoToTheFirst(lex, ans, s, msgs);
    SharesOfNotices(lex, ans, s, msgs, Conversation(lex, s, Batch(ans, msgs)).outcome.prompts);
  }

  lemma SharesOfNotices(lex: Lexicon, ans: Answers, s: Store, msgs: seq<PamMessage>, given: seq<Prompt>)
    requires Faithful(lex, s, ans) && |given| == |msgs| && ans(LOGIN_USER) != []
    requires forall i | 0 <= i < |msgs| :: given[i].response == Share(lex, ans, s, msgs, i)
    ensures NoticeTakesAnswer(msgs, given) <==> NoticeBeforeUserName(msgs)
    ensures forall i | 0 <= i < |msgs| && !IsPrompt(msgs[i]) ::
      given[i].response == [] || given[i].response == ans(LOGIN_USER)
  {
    UserNameAvailable(lex, ans, s, msgs);
    if NoticeTakesAnswer(msgs, given) {
      var i :| 0 <= i < |msgs| && !IsPrompt(msgs[i]) && given[i].response != [];
      StrayShare(lex, s, msgs, i);
    }
    if NoticeBeforeUserName(msgs) {
      var i := NoticeTakes(lex, ans, s, msgs);
      assert given[i].response != [];
    }
  }

  /** The user name is at hand exactly if a prompt of the conversation asks for it. */
  lemma UserNameAvailable(lex: Lexicon, ans: Answers, s: Store, msgs: seq<PamMessage>)
    requires Faithful(lex, s, ans)
    ensures LOGIN_USER in Available(lex, s, msgs) <==> exists k | 0 <= k < |msgs| :: msgs[k].style == EchoOn
  {
    FaithfulIsGood(lex, s, ans, msgs);
    if k :| 0 <= k < |msgs| && msgs[k].style == EchoOn {
      assert Renewed(lex, Kinds(s.prompts), msgs, k);
      assert Detect(lex, msgs[k]) == LOGIN_USER;
      assert LOGIN_USER in AskedKinds(lex, msgs) && LOGIN_USER in LateKinds(lex, Kinds(s.prompts), msgs, |msgs|);
    }
  }

  lemma StrayShare(lex: Lexicon, s: Store, msgs: seq<PamMessage>, i: nat)
    requires i < |msgs| && !IsPrompt(msgs[i]) && LOGIN_USER !in SeenKinds(lex, msgs[..i])
    requires exists k | 0 <= k < |msgs| :: msgs[k].style == EchoOn
    ensures NoticeBeforeUserName(msgs)
  {
    var k :| 0 <= k < |msgs| && msgs[k].style == EchoOn;
    forall j | 0 <= j < i ensures msgs[j].style == EchoOff {
      assert msgs[..i][j] == msgs[j] && Detect(lex, msgs[..i][j]) in SeenKinds(lex, msgs[..i]);
    }
    assert i < k;
  }

  lemma NoticeTakes(lex: Lexicon, ans: Answers, s: Store, msgs: seq<PamMessage>) returns (i: nat)
    requires Faithful(lex, s, ans) && NoticeBeforeUserName(msgs)
    ensures i < |msgs| && !IsPrompt(msgs[i]) && Share(lex, ans, s, msgs, i) == ans(LOGIN_USER)
  {
    var n, k :| 0 <= n < k < |msgs| && !IsPrompt(msgs[n]) && msgs[k].style == EchoOn
      && forall j | 0 <= j < n :: msgs[j].style == EchoOff;
    i := n;
    UserNameAvailable(lex, ans, s, msgs);
    assert LOGIN_USER !in SeenKinds(lex, msgs[..i]);
  }

  /** No earlier message is of the class of a prompt. */
  ghost predicate EachFirst(lex: Lexicon, msgs: seq<PamMessage>) {
    forall i, j | 0 <= j < i < |msgs| && IsPrompt(msgs[i]) :: Detect(lex, msgs[j]) != Detect(lex, msgs[i])
  }

  /** The first prompt is of a class that is not stored. */
  ghost predicate FirstPromptNew(lex: Lexicon, known: set<PromptType>, msgs: seq<PamMessage>) {
    exists i | 0 <= i < |msgs| ::
      IsPrompt(msgs[i]) && Detect(lex, msgs[i]) !in known && forall j | 0 <= j < i :: !IsPrompt(msgs[j])
  }

  ghost predicate AllServed(lex: Lexicon, ans: Answers, msgs: seq<PamMessage>, given: seq<Prompt>)
    requires |given| == |msgs|
  {
    forall i | 0 <= i < |msgs| && IsPrompt(msgs[i]) :: given[i].response == Alone(lex, ans, msgs[i])
  }

  /** Every prompt of the conversation gets its own answer exactly when each comes first in its class and, if
      answers are stored, either all classes asked for are stored or already the first prompt's is not. */
  lemma ServedIffFirst(lex: Lexicon, ans: Answers, s: Store, msgs: seq<PamMessage>)
    requires 2 <= |msgs| <= PAM_MAX_NUM_MSG && NoTextClash(lex, msgs) && Faithful(lex, s, ans)
    requires forall i | 0 <= i < |msgs| :: ans(Detect(lex, msgs[i])) != []
    ensures var talk := Conversation(lex, s, Batch(ans, msgs));
      && talk.outcome.Given? && |talk.outcome.prompts| == |msgs|
      && (AllServed(lex, ans, msgs, talk.outcome.prompts) <==>
            && EachFirst(lex, msgs)
            && (s.sent ==>
                  AskedKinds(lex, msgs) <= Kinds(s.prompts) || FirstPromptNew(lex, Kinds(s.prompts), msgs)))
  {
    AnswersGoToTheFirst(lex, ans, s, msgs);
    var given := Conversation(lex, s, Batch(ans, msgs)).outcome.prompts;
    if AllServed(lex, ans, msgs, given) {
      ServedAreFirst(lex, ans, s, msgs, given);
      if s.sent && !(AskedKinds(lex, msgs) <= Kinds(s.prompts)) { ServedStartNew(lex, s, msgs); }
    }
    if EachFirst(lex, msgs)
      && (s.sent ==> AskedKinds(lex, msgs) <= Kinds(s.prompts) || FirstPromptNew(lex, Kinds(s.prompts), msgs)) {
      FirstAreServed(lex, ans, s, msgs, given);
    }
  }

  lemma ServedAreFirst(lex: Lexicon, ans: Answers, s: Store, msgs: seq<PamMessage>, given: seq<Prompt>)
    requires |given| == |msgs| && forall i | 0 <= i < |msgs| :: given[i].response == Share(lex, ans, s, msgs, i)
    requires forall i | 0 <= i < |msgs| :: ans(Detect(lex, msgs[i])) != []
    requires AllServed(lex, ans, msgs, given)
    ensures EachFirst(lex, msgs)
    ensures AskedKinds(lex, msgs) <= Available(lex, s, msgs)
  {
    forall i, j | 0 <= j < i < |msgs| && IsPrompt(msgs[i]) ensures Detect(lex, msgs[j]) != Detect(lex, msgs[i]) {
      assert given[i].response == Alone(lex, ans, msgs[i]) == ans(Detect(lex, msgs[i]));
      assert msgs[..i][j] == msgs[j] && Detect(lex, msgs[..i][j]) in SeenKinds(lex, msgs[..i]);
    }
    forall i | 0 <= i < |msgs| && IsPrompt(msgs[i]) ensures Detect(lex, msgs[i]) in Available(lex, s, msgs) {
      assert given[i].response == Alone(lex, ans, msgs[i]) == ans(Detect(lex, msgs[i]));
    }
  }

  lemma FirstPrompt(msgs: seq<PamMessage>, i: nat) returns (p: nat)
    requires i < |msgs| && IsPrompt(msgs[i])
    ensures p <= i && IsPrompt(msgs[p]) && forall j | 0 <= j < p :: !IsPrompt(msgs[j])
  {
    p := 0;
    while !IsPrompt(msgs[p])
      invariant p <= i && forall j | 0 <= j < p :: !IsPrompt(msgs[j])
      decreases i - p
    {
      p := p + 1;
    }
  }

  /** If all classes are still available after a new one, nothing was asked for before it. */
  lemma ServedStartNew(lex: Lexicon, s: Store, msgs: seq<PamMessage>)
    requires s.sent && !(AskedKinds(lex, msgs) <= Kinds(s.prompts))
    requires EachFirst(lex, msgs) && AskedKinds(lex, msgs) <= Available(lex, s, msgs)
    ensures FirstPromptNew(lex, Kinds(s.prompts), msgs)
  {
    var known := Kinds(s.prompts);
    var i :| 0 <= i < |msgs| && IsPrompt(msgs[i]) && Detect(lex, msgs[i]) !in known;
    var p := FirstPrompt(msgs, i);
    assert Detect(lex, msgs[p]) in AskedKinds(lex, msgs);
    assert Detect(lex, msgs[p]) in LateKinds(lex, known, msgs, |msgs|);
    var j :| 0 <= j < |msgs| && IsPrompt(msgs[j]) && Renewed(lex, known, msgs, j)
      && Detect(lex, msgs[j]) == Detect(lex, msgs[p]);
    assert j == p;
  }

  lemma FirstAreServed(lex: Lexicon, ans: Answers, s: Store, msgs: seq<PamMessage>, given: seq<Prompt>)
    requires |given| == |msgs| && forall i | 0 <= i < |msgs| :: given[i].response == Share(lex, ans, s, msgs, i)
    requires EachFirst(lex, msgs)
    requires s.sent ==> AskedKinds(lex, msgs) <= Kinds(s.prompts) || FirstPromptNew(lex, Kinds(s.prompts), msgs)
    ensures AllServed(lex, ans, msgs, given)
  {
    forall i | 0 <= i < |msgs| && IsPrompt(msgs[i]) ensures given[i].response == Alone(lex, ans, msgs[i]) {
      assert Detect(lex, msgs[i]) in AskedKinds(lex, msgs);
      if FirstPromptNew(lex, Kinds(s.prompts), msgs) {
        assert Renewed(lex, Kinds(s.prompts), msgs, i);
        assert Detect(lex, msgs[i]) in LateKinds(lex, Kinds(s.prompts), msgs, |msgs|);
      }
      assert Detect(lex, msgs[i]) in Available(lex, s, msgs);
    }
  }

  // ------------------------------------------------ where cache and batch meet

  /** A prompt for the user name in a conversation of its own leaves the pass phrase stored. */
  lemma PassPhraseIsStored(lex: Lexicon, ans: Answers, m: PamMessage)
    requires KnowsItsTexts(lex) && IsPrompt(m) && Detect(lex, m) == LOGIN_USER
    ensures var s := CacheAfter(lex, ans, EMPTY_STORE, [m]);
      s.sent && Faithful(lex, s, ans) && Kinds(s.prompts) == {LOGIN_PASSWORD}
  {
    PromptTurn(lex, EMPTY_STORE, ans, m);
    assert [m][..0] == [];
    var h := Store(false, LOGIN_REQUEST.prompts, INVALID_PROMPT);
    assert Insert(lex, EMPTY_STORE, m, true) == (h, true) by {
      assert Find(lex, [], m) == -1;
    }
    AskedPrompt(lex, EMPTY_STORE, ans, m);
    SecondIsLeft(lex, ans, h, m);
  }

  lemma SecondIsLeft(lex: Lexicon, ans: Answers, h: Store, m: PamMessage)
    requires |h.prompts| == 2 && h.prompts[0].kind == Detect(lex, m)
    ensures var s := TakeResponse(lex, Answered(ans, h), m).0;
      s.sent && Kinds(s.prompts) == {h.prompts[1].kind}
  {
    var c := Answered(ans, h).prompts;
    assert Find(lex, c, m) == 0 && RemoveOne(c, c[0]) == [c[1]];
    assert [c[1]][0].kind in Kinds([c[1]]);
  }

  /** From there, a conversation with a prompt for the pass phrase and then one for a new password gives the first
      nothing, although it is the first of its class and its answer was stored: the second costs the store its
      answers before any is handed out. */
  lemma StoredAnswerIsLost(lex: Lexicon, ans: Answers, user: PamMessage, password: PamMessage, change: PamMessage)
    requires KnowsItsTexts(lex) && ans(LOGIN_PASSWORD) != []
    requires IsPrompt(user) && Detect(lex, user) == LOGIN_USER
    requires IsPrompt(password) && Detect(lex, password) == LOGIN_PASSWORD
    requires IsPrompt(change) && Detect(lex, change) == CHANGE_NEW
    ensures var talk := Conversation(lex, CacheAfter(lex, ans, EMPTY_STORE, [user]), Batch(ans, [password, change]));
      && talk.outcome.Given? && |talk.outcome.prompts| == 2
      && talk.outcome.prompts[0].response == [] != Alone(lex, ans, password)
      && talk.outcome.prompts[1].response == ans(CHANGE_NEW)
  {
    PassPhraseIsStored(lex, ans, user);
    var s, msgs := CacheAfter(lex, ans, EMPTY_STORE, [user]), [password, change];
    assert NoTextClash(lex, msgs);
    OnlySecondIsLate(lex, s, password, change);
    AnswersGoToTheFirst(lex, ans, s, msgs);
    assert msgs[..1] == [password] && CHANGE_NEW !in SeenKinds(lex, msgs[..1]);
    assert Share(lex, ans, s, msgs, 0) == [] && Share(lex, ans, s, msgs, 1) == ans(CHANGE_NEW);
  }

  lemma OnlySecondIsLate(lex: Lexicon, s: Store, first: PamMessage, second: PamMessage)
    requires s.sent && IsPrompt(first) && Detect(lex, first) in Kinds(s.prompts)
    requires IsPrompt(second) && Detect(lex, second) !in Kinds(s.prompts)
    ensures Available(lex, s, [first, second]) == {Detect(lex, second)}
  {
    var known, msgs := Kinds(s.prompts), [first, second];
    assert Detect(lex, msgs[1]) in AskedKinds(lex, msgs) && Renewed(lex, known, msgs, 1);
    assert !Renewed(lex, known, msgs, 0);
    assert LateKinds(lex, known, msgs, 2) == {Detect(lex, second)};
  }

  /** A prompt of unknown type with the text of a prompt for the user name is taken for that one, in the request and
      when the answers are handed out, so it gets nothing. */
  lemma ClashLosesAnswer(lex: Lexicon, ans: Answers, user: PamMessage, other: PamMessage)
    requires user.style == EchoOn && other.style == EchoOff && Detect(lex, other) == UNKNOWN
    requires other.text == user.text && ans(UNKNOWN) != []
    ensures EachFirst(lex, [user, other])
    ensures var talk := Conversation(lex, EMPTY_STORE, Batch(ans, [user, other]));
      && talk.outcome.Given? && |talk.outcome.prompts| == 2
      && talk.outcome.prompts[0].response == ans(LOGIN_USER)
      && talk.outcome.prompts[1].response == [] != Alone(lex, ans, other)
  {
    var msgs, s := [user, other], Store(false, [AsItComes(lex, user)], INVALID_PROMPT);
    HearTwo(lex, user, other);
    BatchTalk(lex, ans, EMPTY_STORE, msgs, Heard(s, true, []));
    TakenBefore(lex, Answered(ans, s), user, other);
  }

  lemma HearTwo(lex: Lexicon, user: PamMessage, other: PamMessage)
    requires user.style == EchoOn && other.style == EchoOff && Detect(lex, other) == UNKNOWN && other.text == user.text
    ensures Hear(lex, EMPTY_STORE, [user, other], false)
         == Heard(Store(false, [AsItComes(lex, user)], INVALID_PROMPT), true, [])
  {
    var p := AsItComes(lex, user);
    var one := Heard(Store(false, [p], INVALID_PROMPT), true, []);
    assert HearOne(lex, Heard(EMPTY_STORE, false, []), user, false) == one by {
      assert Find(lex, [], user) == -1 && [] + [p] == [p];
    }
    assert HearOne(lex, one, other, false) == one by {
      assert Find(lex, [p], other) == 0 && [p][0 := p.(message := other.text)] == [p];
    }
    assert [user, other][..1] == [user] && [user][..0] == [];
    assert Hear(lex, EMPTY_STORE, [user][..0], false) == Heard(EMPTY_STORE, false, []);
    assert Hear(lex, EMPTY_STORE, [user], false) == one;
  }

  lemma TakenBefore(lex: Lexicon, c: Store, first: PamMessage, second: PamMessage)
    requires c.sent && c.shared == INVALID_PROMPT && |c.prompts| == 1 && Hits(lex, first, c.prompts[0])
    ensures Deliver(lex, c, [first, second]) == (EMPTY_STORE, [c.prompts[0], INVALID_PROMPT])
  {
    var p := c.prompts[0];
    assert [first, second][..1] == [first] && [first][..0] == [];
    assert Deliver(lex, c, [first][..0]) == (c, []) && Find(lex, c.prompts, first) == 0;
    assert TakeResponse(lex, c, first) == (EMPTY_STORE, p) && [] + [p] == [p];
    assert Deliver(lex, c, [first]) == (EMPTY_STORE, [p]);
    assert TakeResponse(lex, EMPTY_STORE, second) == (EMPTY_STORE, INVALID_PROMPT);
    assert [p] + [INVALID_PROMPT] == [p, INVALID_PROMPT];
  }

  // -------------------------------------------------------------- runs of any kind

  /** The store after conversations of any sizes. */
  function RunAfter(lex: Lexicon, ans: Answers, s: Store, cs: seq<seq<PamMessage>>): Store {
    if cs == [] then s
    else Conversation(lex, RunAfter(lex, ans, s, cs[..|cs| - 1]), Batch(ans, cs[|cs| - 1])).store
  }

  ghost predicate Orderly(lex: Lexicon, s: Store, msgs: seq<PamMessage>) {
    && NoTextClash(lex, msgs)
    && (|msgs| == 1 && !IsPrompt(msgs[0]) ==> !Overwrites(lex, s, msgs[0]))
  }

  ghost predicate OrderlyRun(lex: Lexicon, ans: Answers, s: Store, cs: seq<seq<PamMessage>>) {
    forall k | 0 <= k < |cs| :: Orderly(lex, RunAfter(lex, ans, s, cs[..k]), cs[k])
  }

  lemma ConversationKeepsFaith(lex: Lexicon, ans: Answers, s: Store, msgs: seq<PamMessage>)
    requires KnowsItsTexts(lex) && Faithful(lex, s, ans) && Orderly(lex, s, msgs)
    ensures Faithful(lex, Conversation(lex, s, Batch(ans, msgs)).store, ans)
  {
    if |msgs| == 1 {
      assert msgs == [msgs[0]];
      if IsPrompt(msgs[0]) { PromptTurn(lex, s, ans, msgs[0]); } else { OtherTurn(lex, s, ans, msgs[0]); }
    } else if 2 <= |msgs| <= PAM_MAX_NUM_MSG {
      AnswersGoToTheFirst(lex, ans, s, msgs);
    }
  }

  /** However conversations of one and of several messages are mixed, the store stays faithful, so the results about
      single conversations hold of each of them. */
  lemma {:induction false} RunsStayFaithful(lex: Lexicon, ans: Answers, s: Store, cs: seq<seq<PamMessage>>)
    requires KnowsItsTexts(lex) && Faithful(lex, s, ans) && OrderlyRun(lex, ans, s, cs)
    ensures Faithful(lex, RunAfter(lex, ans, s, cs), ans)
  {
    if cs != [] {
      var n := |cs| - 1;
      assert OrderlyRun(lex, ans, s, cs[..n]) by {
        forall k | 0 <= k < n ensures cs[..n][..k] == cs[..k] {
        }
      }
      RunsStayFaithful(lex, ans, s, cs[..n]);
      ConversationKeepsFaith(lex, ans, RunAfter(lex, ans, s, cs[..n]), cs[n]);
    }
  }
}
