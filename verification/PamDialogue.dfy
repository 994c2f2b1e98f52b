/** Whole dialogues against the daemon, which answers by position: when it leaves a request unanswered, and what every
    prompt is answered with until then. */
module PamDialogue {
  import opened Bytes
  import opened AuthMessages
  import opened PamData
  import opened PamStore
  import opened PamCache
  import opened PamBatch
  import opened AuthWire
  import opened LoginDaemon
  import opened PamLogin

  /** All that matters of the prompt store: whether it has been sent, and the answer held for each type. */
  datatype Memory = Memory(sent: bool, answers: map<PromptType, Blob>)

  const BLANK := Memory(false, map[])

  /** After a message about changing the password: three prompts, and no answers. */
  const NEW_PASSWORDS: map<PromptType, Blob> := map[CHANGE_CURRENT := [], CHANGE_NEW := [], CHANGE_REPEAT := []]

  predicate AnnouncesChange(lex: Lexicon, m: PamMessage) { m.style == TextInfo && lex.changing(m.text) }

  /** A prompt whose request has more than two prompts: any but the user name while prompts wait to be sent, and
      otherwise the one for the current password, unless its answer is held. */
  predicate Unanswerable(lex: Lexicon, mem: Memory, m: PamMessage) {
    IsPrompt(m) &&
      if !mem.sent && mem.answers != map[] then Detect(lex, m) != LOGIN_USER
      else Detect(lex, m) == CHANGE_CURRENT && CHANGE_CURRENT !in mem.answers
  }

  predicate Held(lex: Lexicon, mem: Memory, m: PamMessage) { mem.sent && Detect(lex, m) in mem.answers }

  /** What a message is answered with: what is held; otherwise by position, so that the user name goes to the first
      of two. */
  function Response(lex: Lexicon, user: Blob, pass: Blob, mem: Memory, m: PamMessage): Blob {
    if !IsPrompt(m) then []
    else if Held(lex, mem, m) then mem.answers[Detect(lex, m)]
    else if Detect(lex, m) in {LOGIN_USER, CHANGE_NEW} then user
    else pass
  }

  function Recall(lex: Lexicon, pass: Blob, mem: Memory, m: PamMessage): Memory {
    if !IsPrompt(m) then (if AnnouncesChange(lex, m) then mem.(answers := NEW_PASSWORDS) else mem)
    else if Held(lex, mem, m) then
      var left := mem.answers - {Detect(lex, m)};
      Memory(left != map[], left)
    else if Detect(lex, m) == LOGIN_USER then Memory(true, map[LOGIN_PASSWORD := pass])
    else if Detect(lex, m) == CHANGE_NEW then Memory(true, map[CHANGE_REPEAT := pass])
    else BLANK
  }

  function MemoryAfter(lex: Lexicon, pass: Blob, ms: seq<PamMessage>): Memory {
    if ms == [] then BLANK
    else Recall(lex, pass, MemoryAfter(lex, pass, ms[..|ms| - 1]), ms[|ms| - 1])
  }

  /** The store and the memory of it. */
  ghost predicate Tracks(lex: Lexicon, s: Store, mem: Memory) {
    && Inv(s) && Worded(lex, s) && LOGIN_USER !in Kinds(s.prompts)
    && s.sent == mem.sent && Kinds(s.prompts) == mem.answers.Keys
    && (forall i | 0 <= i < |s.prompts| && s.prompts[i].kind in mem.answers ::
          s.prompts[i].response == mem.answers[s.prompts[i].kind])
    && (!s.sent && s.prompts != [] ==>
          |s.prompts| == 3 && {CHANGE_CURRENT, CHANGE_NEW, CHANGE_REPEAT} <= Kinds(s.prompts))
  }

  // -------------------------------------------------------------- one message

  lemma LookupByKind(lex: Lexicon, s: Store, m: PamMessage)
    requires Worded(lex, s) && LOGIN_USER !in Kinds(s.prompts)
    ensures var i := Find(lex, s.prompts, m);
      if i == -1 then Detect(lex, m) !in Kinds(s.prompts)
      else s.prompts[i].kind == Detect(lex, m) && Detect(lex, m) in Kinds(s.prompts)
  {
    assert forall i | 0 <= i < |s.prompts| :: s.prompts[i].kind in Kinds(s.prompts);
    FoundByKind(lex, s.prompts, [m], 0);
  }

  lemma KindsOfThree(ps: seq<Prompt>)
    requires |ps| == 3
    ensures Kinds(ps) == {ps[0].kind, ps[1].kind, ps[2].kind}
  {
  }

  /** The three predicted prompts are tracked as such, sent or not. */
  lemma TracksPrediction(lex: Lexicon, s: Store, mem: Memory)
    requires KnowsItsTexts(lex) && Tracks(lex, s, mem)
    ensures Tracks(lex, s.(prompts := CHANGE_PASS_REQUEST.prompts), mem.(answers := NEW_PASSWORDS))
  {
    var ps := CHANGE_PASS_REQUEST.prompts;
    KindsOfThree(ps);
    assert ps == Predicted(CHANGE_CURRENT);
    PredictedIsGood(CHANGE_CURRENT);
    assert NEW_PASSWORDS.Keys == {CHANGE_CURRENT, CHANGE_NEW, CHANGE_REPEAT};
  }

  /** What is no prompt is answered with nothing and takes nothing. */
  lemma NoticeFollows(
    lex: Lexicon, s: Store, mem: Memory, printable: QString -> Blob, user: QString, pass: QString, m: PamMessage)
    requires KnowsItsTexts(lex) && Tracks(lex, s, mem) && !IsPrompt(m)
    ensures var talk := Conversation(lex, s, DaemonTurn(printable, user, pass, m));
      && talk.asked == [] && talk.outcome == Given([INVALID_PROMPT])
      && Tracks(lex, talk.store, Recall(lex, printable(pass), mem, m))
  {
    var h := if AnnouncesChange(lex, m) then s.(prompts := CHANGE_PASS_REQUEST.prompts) else s;
    OtherTalk(lex, s, DaemonTurn(printable, user, pass, m), m);
    HeardNotice(lex, s, m);
    if AnnouncesChange(lex, m) { TracksPrediction(lex, s, mem); }
    NoUserName(lex, h, Recall(lex, printable(pass), mem, m));
    NothingToTake(lex, h, m);
  }

  lemma HeardNotice(lex: Lexicon, s: Store, m: PamMessage)
    requires !IsPrompt(m)
    ensures HearOne(lex, Heard(s, false, []), m, true).store
         == if AnnouncesChange(lex, m) then s.(prompts := CHANGE_PASS_REQUEST.prompts) else s
  {
  }

  lemma NoUserName(lex: Lexicon, s: Store, mem: Memory)
    requires Tracks(lex, s, mem)
    ensures Inv(s) && forall i | 0 <= i < |s.prompts| :: s.prompts[i].kind != LOGIN_USER
  {
    assert forall i | 0 <= i < |s.prompts| :: s.prompts[i].kind in Kinds(s.prompts);
  }

  lemma TracksFewer(lex: Lexicon, s: Store, mem: Memory, i: nat, s': Store)
    requires Tracks(lex, s, mem) && s.sent && i < |s.prompts| && Inv(s')
    requires s'.prompts == s.prompts[..i] + s.prompts[i + 1..] && s'.sent == (s'.prompts != [])
    ensures var left := mem.answers - {s.prompts[i].kind}; Tracks(lex, s', Memory(left != map[], left))
  {
    var ps, left := s'.prompts, mem.answers - {s.prompts[i].kind};
    KindsWithoutOne(s.prompts, i);
    assert left.Keys == mem.answers.Keys - {s.prompts[i].kind};
    SomeKind(ps);
    assert left == map[] <==> left.Keys == {};
    forall j | 0 <= j < |ps|
      ensures (ps[j].kind in left ==> ps[j].response == left[ps[j].kind])
      ensures ps[j].kind !in {UNKNOWN, LOGIN_USER} ==> lex.password(ps[j].message)
    {
      assert ps[j] == s.prompts[if j < i then j else j + 1];
    }
  }

  /** A prompt whose answer is held is answered with it, and the answer is gone. */
  lemma HeldFollows(
    lex: Lexicon, s: Store, mem: Memory, printable: QString -> Blob, user: QString, pass: QString, m: PamMessage)
    requires Tracks(lex, s, mem) && IsPrompt(m) && Held(lex, mem, m)
    ensures var talk := Conversation(lex, s, DaemonTurn(printable, user, pass, m));
      && talk.asked == [] && talk.outcome.Given? && |talk.outcome.prompts| == 1
      && talk.outcome.prompts[0].response == mem.answers[Detect(lex, m)]
      && Tracks(lex, talk.store, Recall(lex, printable(pass), mem, m))
  {
    HeldIsTaken(lex, s, mem, printable(pass), m);
    AnsweredFromStore(lex, s, DaemonTurn(printable, user, pass, m), m);
  }

  /** A held answer is found and taken, and the store is tracked without it. */
  lemma HeldIsTaken(lex: Lexicon, s: Store, mem: Memory, pass: Blob, m: PamMessage)
    requires Tracks(lex, s, mem) && IsPrompt(m) && Held(lex, mem, m)
    ensures s.sent && Find(lex, s.prompts, m) != -1
    ensures var p := s.prompts[Find(lex, s.prompts, m)]; p.Valid() && p.response == mem.answers[Detect(lex, m)]
    ensures Tracks(lex, TakeResponse(lex, s, m).0, Recall(lex, pass, mem, m))
  {
    HeldIsFound(lex, s, mem, m);
    RecallHeld(lex, mem, pass, m);
    FoundIsTaken(lex, s, mem, m);
  }

  lemma RecallHeld(lex: Lexicon, mem: Memory, pass: Blob, m: PamMessage)
    requires IsPrompt(m) && Held(lex, mem, m)
    ensures var left := mem.answers - {Detect(lex, m)}; Recall(lex, pass, mem, m) == Memory(left != map[], left)
  {
  }

  lemma FoundIsTaken(lex: Lexicon, s: Store, mem: Memory, m: PamMessage)
    requires Tracks(lex, s, mem) && s.sent && Find(lex, s.prompts, m) != -1
    ensures var left := mem.answers - {s.prompts[Find(lex, s.prompts, m)].kind};
      Tracks(lex, TakeResponse(lex, s, m).0, Memory(left != map[], left))
  {
    TakeResponseKeeps(lex, s, m);
    TracksFewer(lex, s, mem, Find(lex, s.prompts, m), TakeResponse(lex, s, m).0);
  }

  lemma HeldIsFound(lex: Lexicon, s: Store, mem: Memory, m: PamMessage)
    requires Tracks(lex, s, mem) && Held(lex, mem, m)
    ensures var i := Find(lex, s.prompts, m);
      && i != -1 && s.prompts[i].kind == Detect(lex, m) && s.prompts[i].Valid()
      && s.prompts[i].response == mem.answers[Detect(lex, m)]
  {
    LookupByKind(lex, s, m);
  }

  lemma SomeKind(ps: seq<Prompt>)
    ensures Kinds(ps) == {} <==> ps == []
  {
    if ps != [] { assert ps[0].kind in Kinds(ps); }
  }

  /** What goes out for a prompt while others wait to be sent. */
  lemma InsertAmongWaiting(lex: Lexicon, s: Store, mem: Memory, m: PamMessage)
    requires Tracks(lex, s, mem) && IsPrompt(m) && !s.sent && s.prompts != []
    ensures var (h, asking) := Insert(lex, s, m, true);
      && asking && !h.sent && h.shared == INVALID_PROMPT
      && if Detect(lex, m) == LOGIN_USER then h.prompts == Predicted(LOGIN_USER) else |h.prompts| >= 3
  {
    LookupByKind(lex, s, m);
    InsertKeeps(lex, s, m, true);
  }

  /** What goes out for a prompt otherwise, if its answer is not held. */
  lemma InsertAlone(lex: Lexicon, s: Store, mem: Memory, m: PamMessage)
    requires Tracks(lex, s, mem) && IsPrompt(m) && (s.sent || s.prompts == []) && Detect(lex, m) !in Kinds(s.prompts)
    ensures Insert(lex, s, m, true) ==
      (Store(false, if Predicted(Detect(lex, m)) != [] then Predicted(Detect(lex, m)) else [AsItComes(lex, m)],
             INVALID_PROMPT), true)
  {
    LookupByKind(lex, s, m);
    assert [] + [AsItComes(lex, m)] == [AsItComes(lex, m)];
  }

  lemma InsertFollows(lex: Lexicon, s: Store, mem: Memory, m: PamMessage)
    requires Tracks(lex, s, mem) && IsPrompt(m) && !Held(lex, mem, m)
    ensures var (h, asking) := Insert(lex, s, m, true);
      && asking && !h.sent && h.shared == INVALID_PROMPT && h.prompts != []
      && (Answerable(Request(h.prompts)) <==> !Unanswerable(lex, mem, m))
      && (!Unanswerable(lex, mem, m) ==>
            h.prompts == if Detect(lex, m) in {LOGIN_USER, CHANGE_NEW} then Predicted(Detect(lex, m))
                         else [AsItComes(lex, m)])
  {
    SomeKind(s.prompts);
    assert mem.answers == map[] <==> mem.answers.Keys == {};
    if !s.sent && s.prompts != [] {
      InsertAmongWaiting(lex, s, mem, m);
    } else {
      InsertAlone(lex, s, mem, m);
    }
  }

  /** A request of one or two prompts whose first is the one asked for. */
  lemma AnsweredByPosition(
    lex: Lexicon, s: Store, ps: seq<Prompt>, printable: QString -> Blob, user: QString, pass: QString, m: PamMessage)
    requires IsPrompt(m) && Insert(lex, s, m, true) == (Store(false, ps, INVALID_PROMPT), true)
    requires 1 <= |ps| <= 2 && ps[0].kind == Detect(lex, m)
    ensures var talk := Conversation(lex, s, DaemonTurn(printable, user, pass, m));
      && talk.asked == [Request(ps)] && talk.outcome.Given? && |talk.outcome.prompts| == 1
      && talk.outcome.prompts[0].response == (if |ps| == 1 then printable(pass) else printable(user))
      && talk.store == if |ps| == 1 then EMPTY_STORE
                       else Store(true, [ps[1].(response := printable(pass))], INVALID_PROMPT)
  {
    var t := DaemonTurn(printable, user, pass, m);
    AskedTurn(lex, s, t, m);
    var c := t.peer(Request(ps)).prompts;
    assert Find(lex, c, m) == 0;
    assert RemoveOne(c, c[0]) == c[1..];
  }

  lemma AskedFollows(
    lex: Lexicon, s: Store, mem: Memory, printable: QString -> Blob, user: QString, pass: QString, m: PamMessage)
    requires KnowsItsTexts(lex)
    requires Tracks(lex, s, mem) && IsPrompt(m) && !Held(lex, mem, m) && !Unanswerable(lex, mem, m)
    ensures var talk := Conversation(lex, s, DaemonTurn(printable, user, pass, m));
      && |talk.asked| == 1 && Answerable(talk.asked[0]) && talk.outcome.Given? && |talk.outcome.prompts| == 1
      && talk.outcome.prompts[0].response == Response(lex, printable(user), printable(pass), mem, m)
      && Tracks(lex, talk.store, Recall(lex, printable(pass), mem, m))
  {
    InsertFollows(lex, s, mem, m);
    var h := Insert(lex, s, m, true).0;
    PredictedIsGood(Detect(lex, m));
    assert h == Store(false, h.prompts, INVALID_PROMPT);
    AnsweredByPosition(lex, s, h.prompts, printable, user, pass, m);
    if |h.prompts| == 2 {
      assert CHANGE_PASS_NO_OLD_REQUEST.prompts[1] == CHANGE_PASS_REQUEST.prompts[2];
      TracksOne(lex, h.prompts[1].(response := printable(pass)));
    } else {
      TracksBlank(lex);
    }
  }

  lemma TracksBlank(lex: Lexicon)
    ensures Tracks(lex, EMPTY_STORE, BLANK)
  {
    SomeKind([]);
  }

  lemma TracksOne(lex: Lexicon, p: Prompt)
    requires p.kind in ASKABLE && p.kind != LOGIN_USER && (p.kind != UNKNOWN ==> lex.password(p.message))
    ensures Tracks(lex, Store(true, [p], INVALID_PROMPT), Memory(true, map[p.kind := p.response]))
  {
    assert [p][0].kind in Kinds([p]);
  }

  lemma UnansweredFollows(
    lex: Lexicon, s: Store, mem: Memory, printable: QString -> Blob, user: QString, pass: QString, m: PamMessage)
    requires Tracks(lex, s, mem) && Unanswerable(lex, mem, m)
    ensures var talk := Conversation(lex, s, DaemonTurn(printable, user, pass, m));
      |talk.asked| == 1 && !Answerable(talk.asked[0])
  {
    InsertFollows(lex, s, mem, m);
    OneMessage(lex, s, m);
  }

  /** One message: the daemon leaves its request unanswered exactly if the memory says so; otherwise the message is
      answered as the memory says, and the memory follows the store. */
  lemma TurnFollows(
    lex: Lexicon, s: Store, mem: Memory, printable: QString -> Blob, user: QString, pass: QString, m: PamMessage)
    requires KnowsItsTexts(lex) && Tracks(lex, s, mem)
    ensures var talk := Conversation(lex, s, DaemonTurn(printable, user, pass, m));
      if Unanswerable(lex, mem, m) then |talk.asked| == 1 && !Answerable(talk.asked[0])
      else
        && (forall i | 0 <= i < |talk.asked| :: Answerable(talk.asked[i]))
        && talk.outcome.Given? && |talk.outcome.prompts| == 1
        && talk.outcome.prompts[0].response == Response(lex, printable(user), printable(pass), mem, m)
        && Tracks(lex, talk.store, Recall(lex, printable(pass), mem, m))
  {
    if !IsPrompt(m) {
      NoticeFollows(lex, s, mem, printable, user, pass, m);
    } else if Unanswerable(lex, mem, m) {
      UnansweredFollows(lex, s, mem, printable, user, pass, m);
    } else if Held(lex, mem, m) {
      HeldFollows(lex, s, mem, printable, user, pass, m);
    } else {
      AskedFollows(lex, s, mem, printable, user, pass, m);
    }
  }

  // ------------------------------------------------------------ whole dialogues

  predicate StopsAt(lex: Lexicon, pass: Blob, ms: seq<PamMessage>, k: nat)
    requires k < |ms|
  {
    Unanswerable(lex, MemoryAfter(lex, pass, ms[..k]), ms[k])
  }

  /** No message of the dialogue asks what the daemon does not answer. */
  ghost predicate Flows(lex: Lexicon, pass: Blob, ms: seq<PamMessage>) {
    forall k | 0 <= k < |ms| :: !StopsAt(lex, pass, ms, k)
  }

  function Turning(
    lex: Lexicon, printable: QString -> Blob, user: QString, pass: QString, ms: seq<PamMessage>, k: nat): Talk
    requires k < |ms|
  {
    Conversation(lex, LoginAfter(lex, printable, user, pass, ms[..k]), DaemonTurn(printable, user, pass, ms[k]))
  }

  /** Every request of the dialogue is one that the daemon answers. */
  ghost predicate AllAnswered(
    lex: Lexicon, printable: QString -> Blob, user: QString, pass: QString, ms: seq<PamMessage>) {
    forall k | 0 <= k < |ms| ::
      forall i | 0 <= i < |Turning(lex, printable, user, pass, ms, k).asked| ::
        Answerable(Turning(lex, printable, user, pass, ms, k).asked[i])
  }

  lemma FlowsPrefix(lex: Lexicon, pass: Blob, ms: seq<PamMessage>, n: nat)
    requires n <= |ms| && Flows(lex, pass, ms)
    ensures Flows(lex, pass, ms[..n])
  {
    forall k | 0 <= k < n ensures !StopsAt(lex, pass, ms[..n], k) {
      assert ms[..n][..k] == ms[..k] && !StopsAt(lex, pass, ms, k);
    }
  }

  lemma {:induction false} DialogueFollows(
    lex: Lexicon, printable: QString -> Blob, user: QString, pass: QString, ms: seq<PamMessage>)
    requires KnowsItsTexts(lex) && Flows(lex, printable(pass), ms)
    ensures Tracks(lex, LoginAfter(lex, printable, user, pass, ms), MemoryAfter(lex, printable(pass), ms))
  {
    if ms == [] {
      TracksBlank(lex);
    } else {
      var n := |ms| - 1;
      FlowsPrefix(lex, printable(pass), ms, n);
      DialogueFollows(lex, printable, user, pass, ms[..n]);
      assert !StopsAt(lex, printable(pass), ms, n);
      TurnFollows(lex, LoginAfter(lex, printable, user, pass, ms[..n]), MemoryAfter(lex, printable(pass), ms[..n]),
                  printable, user, pass, ms[n]);
    }
  }

  /** The first message that the daemon does not answer. */
  lemma FirstUnanswerable(lex: Lexicon, pass: Blob, ms: seq<PamMessage>) returns (k: nat)
    requires !Flows(lex, pass, ms)
    ensures k < |ms| && StopsAt(lex, pass, ms, k) && Flows(lex, pass, ms[..k])
  {
    k := 0;
    while !StopsAt(lex, pass, ms, k)
      invariant k < |ms| && forall i | 0 <= i < k :: !StopsAt(lex, pass, ms, i)
      decreases |ms| - k
    {
      k := k + 1;
    }
    forall i | 0 <= i < k ensures !StopsAt(lex, pass, ms[..k], i) {
      assert ms[..k][..i] == ms[..i] && !StopsAt(lex, pass, ms, i);
    }
  }

  /** For every dialogue of one-message conversations from the start: the daemon answers every request exactly when no
      prompt but one for the user name comes while the prompts predicted by a message about changing the password
      wait to be sent, and none for the current password comes without an answer held. */
  lemma AnsweredIffFlows(
    lex: Lexicon, printable: QString -> Blob, user: QString, pass: QString, ms: seq<PamMessage>)
    requires KnowsItsTexts(lex)
    ensures AllAnswered(lex, printable, user, pass, ms) <==> Flows(lex, printable(pass), ms)
  {
    if Flows(lex, printable(pass), ms) {
      forall k | 0 <= k < |ms|
        ensures forall i | 0 <= i < |Turning(lex, printable, user, pass, ms, k).asked| ::
          Answerable(Turning(lex, printable, user, pass, ms, k).asked[i])
      {
        assert !StopsAt(lex, printable(pass), ms, k);
        FlowsPrefix(lex, printable(pass), ms, k);
        DialogueFollows(lex, printable, user, pass, ms[..k]);
        TurnFollows(lex, LoginAfter(lex, printable, user, pass, ms[..k]), MemoryAfter(lex, printable(pass), ms[..k]),
                    printable, user, pass, ms[k]);
      }
    } else {
      var k := FirstUnanswerable(lex, printable(pass), ms);
      DialogueFollows(lex, printable, user, pass, ms[..k]);
      TurnFollows(lex, LoginAfter(lex, printable, user, pass, ms[..k]), MemoryAfter(lex, printable(pass), ms[..k]),
                  printable, user, pass, ms[k]);
      assert !Answerable(Turning(lex, printable, user, pass, ms, k).asked[0]);
    }
  }

  /** And what every message of such a dialogue is answered with. */
  lemma EveryResponse(
    lex: Lexicon, printable: QString -> Blob, user: QString, pass: QString, ms: seq<PamMessage>, k: nat)
    requires KnowsItsTexts(lex) && Flows(lex, printable(pass), ms) && k < |ms|
    ensures var talk := Turning(lex, printable, user, pass, ms, k);
      && talk.outcome.Given? && |talk.outcome.prompts| == 1
      && talk.outcome.prompts[0].response
         == Response(lex, printable(user), printable(pass), MemoryAfter(lex, printable(pass), ms[..k]), ms[k])
  {
    assert !StopsAt(lex, printable(pass), ms, k);
    FlowsPrefix(lex, printable(pass), ms, k);
    DialogueFollows(lex, printable, user, pass, ms[..k]);
    TurnFollows(lex, LoginAfter(lex, printable, user, pass, ms[..k]), MemoryAfter(lex, printable(pass), ms[..k]),
                printable, user, pass, ms[k]);
  }

  /** The answers held: never a user name, and only the pass phrase for a pass phrase. */
  lemma {:induction false} HeldAnswers(lex: Lexicon, pass: Blob, ms: seq<PamMessage>)
    ensures var mem := MemoryAfter(lex, pass, ms);
      && LOGIN_USER !in mem.answers
      && (LOGIN_PASSWORD in mem.answers ==> mem.answers[LOGIN_PASSWORD] == pass)
      && (CHANGE_NEW in mem.answers ==> mem.answers[CHANGE_NEW] == [])
      && (CHANGE_CURRENT in mem.answers ==> mem.answers[CHANGE_CURRENT] == [])
  {
    if ms != [] {
      HeldAnswers(lex, pass, ms[..|ms| - 1]);
    }
  }

  /** Whatever else a dialogue holds, as long as it is answered every prompt for the user name gets the user name and
      every prompt for the pass phrase the pass phrase; but no prompt for the current or a new password ever gets the
      pass phrase, unless that is the user name or empty. */
  lemma LoginPromptsAreServed(
    lex: Lexicon, printable: QString -> Blob, user: QString, pass: QString, ms: seq<PamMessage>, k: nat)
    requires KnowsItsTexts(lex) && Flows(lex, printable(pass), ms) && k < |ms| && IsPrompt(ms[k])
    ensures var talk := Turning(lex, printable, user, pass, ms, k);
      var kind := Detect(lex, ms[k]);
      && talk.outcome.Given? && |talk.outcome.prompts| == 1
      && var response := talk.outcome.prompts[0].response;
         && (kind == LOGIN_USER ==> response == printable(user))
         && (kind == LOGIN_PASSWORD ==> response == printable(pass))
         && (kind == CHANGE_NEW ==> response == printable(user) || response == [])
         && (kind == CHANGE_CURRENT ==> response == [])
  {
    EveryResponse(lex, printable, user, pass, ms, k);
    HeldAnswers(lex, printable(pass), ms[..k]);
    assert !StopsAt(lex, printable(pass), ms, k);
  }

  /** A second way not to be answered: after a message about changing the password, an ordinary prompt for the pass
      phrase is sent along with the three that the message predicted. */
  lemma NoticeBlocksLogin(
    lex: Lexicon, printable: QString -> Blob, user: QString, pass: QString, notice: PamMessage, m: PamMessage)
    requires KnowsItsTexts(lex) && AnnouncesChange(lex, notice)
    requires IsPrompt(m) && Detect(lex, m) == LOGIN_PASSWORD
    ensures !AllAnswered(lex, printable, user, pass, [notice, m])
  {
    var ms := [notice, m];
    AnsweredIffFlows(lex, printable, user, pass, ms);
    assert ms[..1] == [notice] && [notice][..0] == [] && MemoryAfter(lex, printable(pass), [notice][..0]) == BLANK;
    assert MemoryAfter(lex, printable(pass), ms[..1]).answers == NEW_PASSWORDS;
    assert CHANGE_NEW in NEW_PASSWORDS;
    assert StopsAt(lex, printable(pass), ms, 1);
  }

  // ---------------------------------------------- several messages at once

  /** The classes asked for, in the order of their first prompts. */
  ghost function Classes(lex: Lexicon, msgs: seq<PamMessage>): seq<PromptType> {
    if msgs == [] then []
    else
      var front, m := Classes(lex, msgs[..|msgs| - 1]), msgs[|msgs| - 1];
      if IsPrompt(m) && Detect(lex, m) !in front then front + [Detect(lex, m)] else front
  }

  ghost predicate KindsAre(ps: seq<Prompt>, classes: seq<PromptType>) {
    |ps| == |classes| && forall i | 0 <= i < |ps| :: ps[i].kind == classes[i]
  }

  lemma KindsAreIn(ps: seq<Prompt>, classes: seq<PromptType>, kind: PromptType)
    requires KindsAre(ps, classes)
    ensures kind in Kinds(ps) <==> kind in classes
  {
    if i :| 0 <= i < |classes| && classes[i] == kind { assert ps[i].kind == kind; }
  }

  /** What the first loop makes of an empty store, in order. */
  ghost predicate Listed(lex: Lexicon, h: Heard, msgs: seq<PamMessage>, n: nat)
    requires n <= |msgs|
  {
    && Good(lex, h.store, msgs) && !h.store.sent
    && KindsAre(h.store.prompts, Classes(lex, msgs[..n]))
    && (h.newRequest <==> h.store.prompts != [])
  }

  lemma ListPrompt(lex: Lexicon, h: Heard, h': Heard, msgs: seq<PamMessage>, n: nat)
    requires n < |msgs| && NoTextClash(lex, msgs) && Listed(lex, h, msgs, n) && IsPrompt(msgs[n])
    requires (h'.store, h'.newRequest) == Insert(lex, h.store, msgs[n], false)
    ensures Listed(lex, h', msgs, n + 1)
  {
    assert msgs[..n + 1][..n] == msgs[..n];
    InsertBatch(lex, h.store, msgs, n);
    FoundByKind(lex, h.store.prompts, msgs, n);
    KindsAreIn(h.store.prompts, Classes(lex, msgs[..n]), Detect(lex, msgs[n]));
  }

  lemma {:induction false} HearLists(lex: Lexicon, msgs: seq<PamMessage>, n: nat)
    requires n <= |msgs| && NoTextClash(lex, msgs)
    ensures Listed(lex, Hear(lex, EMPTY_STORE, msgs[..n], false), msgs, n)
  {
    if n > 0 {
      assert msgs[..n][..n - 1] == msgs[..n - 1];
      HearLists(lex, msgs, n - 1);
      var h := Hear(lex, EMPTY_STORE, msgs[..n - 1], false);
      HeardBatch(lex, h, msgs[n - 1]);
      if IsPrompt(msgs[n - 1]) { ListPrompt(lex, h, HearOne(lex, h, msgs[n - 1], false), msgs, n - 1); }
    }
  }

  function DaemonBatch(printable: QString -> Blob, user: QString, pass: QString, msgs: seq<PamMessage>): Turn {
    Turn(msgs, r => Fill(printable, user, pass, r))
  }

  /** The answer that the daemon gives to each class: the user name to the first of two. */
  ghost function ByPosition(user: Blob, pass: Blob, classes: seq<PromptType>): Answers {
    (kind: PromptType) => if |classes| == 2 && kind == classes[0] then user else pass
  }

  lemma FillIsByPosition(
    printable: QString -> Blob, user: QString, pass: QString, ps: seq<Prompt>, classes: seq<PromptType>)
    requires KindsAre(ps, classes) && Distinct(ps) && 1 <= |ps| <= 2
    ensures Fill(printable, user, pass, Request(ps))
         == Filled(ByPosition(printable(user), printable(pass), classes), Request(ps))
  {
  }

  /** A conversation depends on the answering process only at the request it makes. */
  lemma SameAnswer(lex: Lexicon, s: Store, t: Turn, u: Turn)
    requires t.msgs == u.msgs
    requires var h := Hear(lex, s, t.msgs, |t.msgs| == 1);
      h.newRequest ==> t.peer(RequestToSend(h.store)) == u.peer(RequestToSend(h.store))
    ensures Conversation(lex, s, t) == Conversation(lex, s, u)
  {
  }

  /** A conversation of several messages from the empty store: the daemon leaves it unanswered exactly if it asks
      for more than two classes, and otherwise it is answered as if by an ideal process with these answers. */
  lemma DaemonAnswersBatch(
    lex: Lexicon, printable: QString -> Blob, user: QString, pass: QString, msgs: seq<PamMessage>)
    requires 2 <= |msgs| <= PAM_MAX_NUM_MSG && NoTextClash(lex, msgs)
    ensures var talk := Conversation(lex, EMPTY_STORE, DaemonBatch(printable, user, pass, msgs));
      var classes := Classes(lex, msgs);
      var ans := ByPosition(printable(user), printable(pass), classes);
      if |classes| > 2 then |talk.asked| == 1 && !Answerable(talk.asked[0])
      else
        && (forall i | 0 <= i < |talk.asked| :: Answerable(talk.asked[i]))
        && talk == Conversation(lex, EMPTY_STORE, Batch(ans, msgs))
        && talk.store == EMPTY_STORE && talk.outcome.Given? && |talk.outcome.prompts| == |msgs|
        && forall i | 0 <= i < |msgs| :: talk.outcome.prompts[i].response == Share(lex, ans, EMPTY_STORE, msgs, i)
  {
    var classes := Classes(lex, msgs);
    var ans := ByPosition(printable(user), printable(pass), classes);
    assert msgs[..|msgs|] == msgs;
    HearLists(lex, msgs, |msgs|);
    var ps := Hear(lex, EMPTY_STORE, msgs, false).store.prompts;
    if |classes| <= 2 {
      if ps != [] { FillIsByPosition(printable, user, pass, ps, classes); }
      SameAnswer(lex, EMPTY_STORE, DaemonBatch(printable, user, pass, msgs), Batch(ans, msgs));
      EmptyIsFaithful(lex, ans);
      AnswersGoToTheFirst(lex, ans, EMPTY_STORE, msgs);
      NothingIsLeft(lex, ans, msgs);
    }
  }

  lemma EmptyIsFaithful(lex: Lexicon, ans: Answers)
    ensures Faithful(lex, EMPTY_STORE, ans) && Kinds(EMPTY_STORE.prompts) == {}
  {
  }

  lemma NothingIsLeft(lex: Lexicon, ans: Answers, msgs: seq<PamMessage>)
    requires var s' := Conversation(lex, EMPTY_STORE, Batch(ans, msgs)).store;
      Leaves(lex, EMPTY_STORE, msgs, s') && Inv(s')
    ensures Conversation(lex, EMPTY_STORE, Batch(ans, msgs)).store == EMPTY_STORE
  {
    var s' := Conversation(lex, EMPTY_STORE, Batch(ans, msgs)).store;
    EmptyIsFaithful(lex, ans);
    assert AskedKinds(lex, msgs) <= SeenKinds(lex, msgs);
    assert Available(lex, EMPTY_STORE, msgs) - SeenKinds(lex, msgs) == {};
    SomeKind(s'.prompts);
  }

  function Credential(user: Blob, pass: Blob, kind: PromptType): Blob { if kind == LOGIN_USER then user else pass }

  /** The user name alone would get the pass phrase, and the first of two classes gets the user name. */
  ghost predicate InPosition(classes: seq<PromptType>) {
    classes == [] || (if |classes| == 1 then classes[0] != LOGIN_USER else |classes| == 2 && classes[0] == LOGIN_USER)
  }

  ghost predicate AllCredentials(
    lex: Lexicon, user: Blob, pass: Blob, msgs: seq<PamMessage>, given: seq<Prompt>)
    requires |given| == |msgs|
  {
    forall i | 0 <= i < |msgs| && IsPrompt(msgs[i]) :: given[i].response == Credential(user, pass, Detect(lex, msgs[i]))
  }

  /** The daemon's answers reach every prompt of such a conversation as the credential it asks for exactly when each
      prompt comes first in its class, and one class is asked for that is not the user name, or two with the user
      name first. */
  lemma CredentialsInBatch(
    lex: Lexicon, printable: QString -> Blob, user: QString, pass: QString, msgs: seq<PamMessage>)
    requires 2 <= |msgs| <= PAM_MAX_NUM_MSG && NoTextClash(lex, msgs) && |Classes(lex, msgs)| <= 2
    requires printable(user) != [] && printable(pass) != [] && printable(user) != printable(pass)
    ensures var talk := Conversation(lex, EMPTY_STORE, DaemonBatch(printable, user, pass, msgs));
      && talk.outcome.Given? && |talk.outcome.prompts| == |msgs|
      && (AllCredentials(lex, printable(user), printable(pass), msgs, talk.outcome.prompts)
          <==> EachFirst(lex, msgs) && InPosition(Classes(lex, msgs)))
  {
    DaemonAnswersBatch(lex, printable, user, pass, msgs);
    var classes := Classes(lex, msgs);
    var ans := ByPosition(printable(user), printable(pass), classes);
    var given := Conversation(lex, EMPTY_STORE, DaemonBatch(printable, user, pass, msgs)).outcome.prompts;
    if AllCredentials(lex, printable(user), printable(pass), msgs, given) {
      NonEmptyAreFirst(lex, ans, msgs, given);
      CredentialsAreInPosition(lex, printable(user), printable(pass), msgs, given);
    }
    if EachFirst(lex, msgs) && InPosition(classes) {
      EmptyIsFaithful(lex, ans);
      FirstAreServed(lex, ans, EMPTY_STORE, msgs, given);
      InPositionGetTheirs(lex, printable(user), printable(pass), msgs);
    }
  }

  lemma NonEmptyAreFirst(lex: Lexicon, ans: Answers, msgs: seq<PamMessage>, given: seq<Prompt>)
    requires |given| == |msgs| && forall i | 0 <= i < |msgs| :: given[i].response == Share(lex, ans, EMPTY_STORE, msgs, i)
    requires forall i | 0 <= i < |msgs| && IsPrompt(msgs[i]) :: given[i].response != []
    ensures EachFirst(lex, msgs)
  {
    forall i, j | 0 <= j < i < |msgs| && IsPrompt(msgs[i]) ensures Detect(lex, msgs[j]) != Detect(lex, msgs[i]) {
      assert given[i].response != [];
      assert msgs[..i][j] == msgs[j] && Detect(lex, msgs[..i][j]) in SeenKinds(lex, msgs[..i]);
    }
  }

  /** Every class has a first prompt. */
  lemma {:induction false} ClassIsAsked(lex: Lexicon, msgs: seq<PamMessage>, kind: PromptType)
    ensures kind in Classes(lex, msgs) <==> kind in AskedKinds(lex, msgs)
  {
    if msgs != [] {
      var n := |msgs| - 1;
      ClassIsAsked(lex, msgs[..n], kind);
      assert msgs[..n + 1] == msgs;
      KindsOfMore(lex, msgs, n);
    }
  }

  lemma CredentialsAreInPosition(lex: Lexicon, user: Blob, pass: Blob, msgs: seq<PamMessage>, given: seq<Prompt>)
    requires user != pass && user != [] && pass != [] && |Classes(lex, msgs)| <= 2 && |given| == |msgs|
    requires forall i | 0 <= i < |msgs| ::
      given[i].response == Share(lex, ByPosition(user, pass, Classes(lex, msgs)), EMPTY_STORE, msgs, i)
    requires AllCredentials(lex, user, pass, msgs, given)
    ensures InPosition(Classes(lex, msgs))
  {
    var classes := Classes(lex, msgs);
    if classes != [] {
      ClassIsAsked(lex, msgs, classes[0]);
      var i :| 0 <= i < |msgs| && IsPrompt(msgs[i]) && Detect(lex, msgs[i]) == classes[0];
      assert given[i].response == Credential(user, pass, classes[0]);
    }
  }

  lemma InPositionGetTheirs(lex: Lexicon, user: Blob, pass: Blob, msgs: seq<PamMessage>)
    requires InPosition(Classes(lex, msgs))
    ensures forall i | 0 <= i < |msgs| && IsPrompt(msgs[i]) ::
      Alone(lex, ByPosition(user, pass, Classes(lex, msgs)), msgs[i]) == Credential(user, pass, Detect(lex, msgs[i]))
  {
    forall i | 0 <= i < |msgs| && IsPrompt(msgs[i])
      ensures Alone(lex, ByPosition(user, pass, Classes(lex, msgs)), msgs[i])
           == Credential(user, pass, Detect(lex, msgs[i]))
    {
      assert Detect(lex, msgs[i]) in AskedKinds(lex, msgs);
      ClassIsAsked(lex, msgs, Detect(lex, msgs[i]));
    }
  }
}
