/** The prompt store and the daemon together: requests cross the wire and come back answered. */
module PamLogin {
  import opened Bytes
  import opened AuthMessages
  import opened SafeDataStream
  import opened PamData
  import opened PamStore
  import opened PamCache
  import opened AuthWire
  import opened LoginDaemon

  // --------------------------------------------------- one request, end to end

  /** The answers of the daemon, and what the store makes of them: the same questions in the same order,
      with the pass phrase last and the user name, if anything, first. */
  lemma AnswerIsAccepted(loc: Locale, d: Daemon, s: Store)
    requires !s.sent && Answerable(RequestToSend(s))
    ensures var r := RequestToSend(s);
      var a := Fill(loc.printable, d.auth.user, d.display.passPhrase, r);
      && RepliesTo(loc, d, AskFrame(r)) == [AnswerFrame(a)]
      && |a.prompts| == |s.prompts|
      && (forall i | 0 <= i < |s.prompts| :: SameQuestion(a.prompts[i], s.prompts[i]))
      && a.prompts[|s.prompts| - 1].response == loc.printable(d.display.passPhrase)
      && (|s.prompts| == 2 ==> a.prompts[0].response == loc.printable(d.auth.user))
      && Complete(s, a) == Store(true, a.prompts, s.shared)
  {
  }

  ghost predicate Idle(s: SafeDataStream)
    reads s, s.device
  {
    s.device.open && s.device.inbox == NOTHING && s.device.outgoing == [] && AllTake(s.device.accepting)
  }

  /** A chunking of one frame. */
  ghost predicate Chunked(chunks: seq<Blob>, payload: Blob) {
    |payload| < MAX_LENGTH && Concat(chunks) == Frame(payload) && NoneEmpty(chunks)
  }

  /** The header of the frame comes in the first chunk. */
  predicate HeaderArrives(chunks: seq<Blob>) { Inbox([], chunks).HeaderWhole(0) }

  /** One frame from one end to the other. */
  method Transport(payload: Blob, from: SafeDataStream, to: SafeDataStream, chunks: seq<Blob>)
    returns (whole: bool)
    requires from != to && from.device != to.device && Idle(from) && Idle(to) && Chunked(chunks, payload)
    modifies from, from.device, to, to.device
    ensures whole <==> HeaderArrives(chunks)
    ensures whole ==> to.data == payload && Idle(to)
    ensures Idle(from) && from.data == [] && (!whole ==> to.data == old(to.data))
  {
    from.data := payload;
    from.Send();
    assert payload[..|payload|] == payload && [] + Frame(payload) == Frame(payload);
    Carry(from.device, to.device, chunks);
    assert Concat(chunks) == Frame(payload) + [];
    var got := to.Receive(payload, []);
    if got == HEADER {
      SkipHeaders(Inbox([], chunks), HEADER + |payload|, 0);
      NothingLeft(to.device.inbox);
    }
    return got == HEADER;
  }

  lemma NothingLeft(a: Inbox)
    requires NoneEmpty(a.arriving) && a.Unread() == []
    ensures a == NOTHING
  {
  }

  /** The daemon's part: it decodes the request and answers it. */
  method AnswerAsk(daemon: LoginDaemon, bytes: Blob, ghost request: Request) returns (reply: DaemonFrame)
    requires Answerable(request) && HelperFits(AskFrame(request)) && bytes == EncHelper(AskFrame(request))
    modifies daemon
    ensures reply == AnswerFrame(Fill(daemon.loc.printable, old(daemon.user), old(daemon.passPhrase), request))
    ensures daemon.replies == old(daemon.replies) + [reply]
  {
    HelperRoundTrip(AskFrame(request), []);
    assert bytes + [] == bytes;
    var frame := DecHelper(bytes);
    daemon.HandleFrame(frame.value);
    reply := daemon.replies[|daemon.replies| - 1];
  }

  /** HelperApp::request against Auth::Private::dataPending, over byte streams with short writes and any chunking of
      the two frames. The exchange is completed exactly when both headers arrive whole, and then the response is
      the request with only the answers filled in. */
  method AskOverTheWire(request: Request, near: SafeDataStream, far: SafeDataStream, daemon: LoginDaemon,
                        there: seq<Blob>, back: seq<Blob>)
    returns (whole: bool, response: Request)
    requires near != far && near.device != far.device && Idle(near) && Idle(far)
    requires Answerable(request) && HelperFits(AskFrame(request)) && Chunked(there, EncHelper(AskFrame(request)))
    requires var a := AnswerFrame(Fill(daemon.loc.printable, daemon.user, daemon.passPhrase, request));
      DaemonFits(a) && Chunked(back, EncDaemon(a))
    modifies near, near.device, far, far.device, daemon
    ensures whole <==> HeaderArrives(there) && HeaderArrives(back)
    ensures whole ==>
      && response == Fill(daemon.loc.printable, old(daemon.user), old(daemon.passPhrase), request)
      && Idle(near) && Idle(far)
    ensures daemon.replies == old(daemon.replies) + if HeaderArrives(there) then
      [AnswerFrame(Fill(daemon.loc.printable, old(daemon.user), old(daemon.passPhrase), request))] else []
  {
    response := Request([]);
    var question := EncHelper(AskFrame(request));
    whole := Transport(question, near, far, there);
    if !whole {
      return;
    }
    var reply := AnswerAsk(daemon, far.data, request);
    whole, response := AnswerOverTheWire(reply, near, far, back);
  }

  /** The way back. */
  method AnswerOverTheWire(reply: DaemonFrame, near: SafeDataStream, far: SafeDataStream, back: seq<Blob>)
    returns (whole: bool, response: Request)
    requires near != far && near.device != far.device && Idle(near) && Idle(far)
    requires reply.AnswerFrame? && DaemonFits(reply) && Chunked(back, EncDaemon(reply))
    modifies near, near.device, far, far.device
    ensures whole <==> HeaderArrives(back)
    ensures whole ==> response == reply.request && Idle(near) && Idle(far)
  {
    response := Request([]);
    var answer := EncDaemon(reply);
    whole := Transport(answer, far, near, back);
    if !whole {
      return;
    }
    DaemonRoundTrip(reply, []);
    assert answer + [] == answer;
    var frame := DecDaemon(near.data);
    if frame.value.AnswerFrame? {
      response := frame.value.request;
    }
  }

  // -------------------------------------------------------- whole logins

  /** The daemon as answering process; it does not answer other requests than these. */
  function DaemonTurn(printable: QString -> Blob, user: QString, pass: QString, m: PamMessage): Turn {
    Turn([m], r => Fill(printable, user, pass, r))
  }

  /** Nothing stored, or just the pass phrase that came along with the user name. */
  ghost predicate LoginStore(s: Store, pass: Blob) {
    || s == EMPTY_STORE
    || (s.sent && s.shared == INVALID_PROMPT && |s.prompts| == 1
        && s.prompts[0].kind == LOGIN_PASSWORD && s.prompts[0].response == pass)
  }

  lemma UserTurn(lex: Lexicon, s: Store, printable: QString -> Blob, user: QString, pass: QString, m: PamMessage)
    requires LoginStore(s, printable(pass)) && IsPrompt(m) && Detect(lex, m) == LOGIN_USER
    ensures var talk := Conversation(lex, s, DaemonTurn(printable, user, pass, m));
      && LoginStore(talk.store, printable(pass))
      && talk.outcome.Given? && talk.outcome.prompts[0].response == printable(user)
  {
    var t := DaemonTurn(printable, user, pass, m);
    var h := Store(false, LOGIN_REQUEST.prompts, INVALID_PROMPT);
    assert Find(lex, s.prompts, m) == -1;
    assert Insert(lex, s, m, true) == (h, true);
    AskedTurn(lex, s, t, m);
    var c := t.peer(Request(h.prompts)).prompts;
    assert Find(lex, c, m) == 0;
    assert RemoveOne(c, c[0]) == [c[1]];
  }

  lemma PasswordTurn(lex: Lexicon, s: Store, printable: QString -> Blob, user: QString, pass: QString, m: PamMessage)
    requires LoginStore(s, printable(pass)) && IsPrompt(m) && Detect(lex, m) == LOGIN_PASSWORD
    ensures var talk := Conversation(lex, s, DaemonTurn(printable, user, pass, m));
      && talk.store == EMPTY_STORE
      && talk.outcome.Given? && talk.outcome.prompts[0].response == printable(pass)
  {
    var t := DaemonTurn(printable, user, pass, m);
    if s == EMPTY_STORE {
      var p := AsItComes(lex, m);
      assert [] + [p] == [p];
      assert Insert(lex, s, m, true) == (Store(false, [p], INVALID_PROMPT), true);
      AskedTurn(lex, s, t, m);
      var c := t.peer(Request([p])).prompts;
      assert Find(lex, c, m) == 0 && RemoveOne(c, c[0]) == [];
    } else {
      assert Find(lex, s.prompts, m) == 0;
      AnsweredFromStore(lex, s, t, m);
      assert RemoveOne(s.prompts, s.prompts[0]) == [];
    }
  }

  lemma NoticeTurn(lex: Lexicon, s: Store, printable: QString -> Blob, user: QString, pass: QString, m: PamMessage)
    requires LoginStore(s, printable(pass)) && !IsPrompt(m) && !(m.style == TextInfo && lex.changing(m.text))
    ensures var talk := Conversation(lex, s, DaemonTurn(printable, user, pass, m));
      talk.store == s && talk.outcome == Given([INVALID_PROMPT])
  {
    OtherTalk(lex, s, DaemonTurn(printable, user, pass, m), m);
    assert Find(lex, s.prompts, m) == -1;
    RemoveOneExact(s.prompts, -1, INVALID_PROMPT);
  }

  function LoginAfter(lex: Lexicon, printable: QString -> Blob, user: QString, pass: QString, ms: seq<PamMessage>)
    : Store
  {
    if ms == [] then EMPTY_STORE
    else Conversation(lex, LoginAfter(lex, printable, user, pass, ms[..|ms| - 1]),
                      DaemonTurn(printable, user, pass, ms[|ms| - 1])).store
  }

  /** A login dialogue: prompts for the user name or the pass phrase, and messages that are not about
      changing the password. */
  predicate LoginMessage(lex: Lexicon, m: PamMessage) {
    if IsPrompt(m) then Detect(lex, m) in {LOGIN_USER, LOGIN_PASSWORD}
    else !(m.style == TextInfo && lex.changing(m.text))
  }

  /** Every prompt of every login dialogue gets the credential it asks for from the real daemon, although the
      daemon answers by position and would answer a lone prompt for the user name with the pass phrase. */
  lemma {:induction false} LoginsGetTheirCredentials(
    lex: Lexicon, printable: QString -> Blob, user: QString, pass: QString, ms: seq<PamMessage>)
    requires forall i | 0 <= i < |ms| :: LoginMessage(lex, ms[i])
    ensures LoginStore(LoginAfter(lex, printable, user, pass, ms), printable(pass))
    ensures ms != [] ==>
      var m, s := ms[|ms| - 1], LoginAfter(lex, printable, user, pass, ms[..|ms| - 1]);
      var talk := Conversation(lex, s, DaemonTurn(printable, user, pass, m));
      && talk.outcome.Given?
      && talk.outcome.prompts[0].response ==
           (if !IsPrompt(m) then [] else if Detect(lex, m) == LOGIN_USER then printable(user) else printable(pass))
  {
    if ms != [] {
      var n := |ms| - 1;
      LoginsGetTheirCredentials(lex, printable, user, pass, ms[..n]);
      var s := LoginAfter(lex, printable, user, pass, ms[..n]);
      if !IsPrompt(ms[n]) {
        NoticeTurn(lex, s, printable, user, pass, ms[n]);
      } else if Detect(lex, ms[n]) == LOGIN_USER {
        UserTurn(lex, s, printable, user, pass, ms[n]);
      } else {
        PasswordTurn(lex, s, printable, user, pass, ms[n]);
      }
    }
  }

  /** Password changes fare differently. Asked for the old password, the store predicts three prompts, which the
      daemon never answers; asked for a new one it predicts two, and the daemon sends the user name. */
  lemma PasswordChangesAreNotServed(
    lex: Lexicon, printable: QString -> Blob, user: QString, pass: QString, m: PamMessage)
    requires IsPrompt(m) && Detect(lex, m) in {CHANGE_CURRENT, CHANGE_NEW}
    ensures var talk := Conversation(lex, EMPTY_STORE, DaemonTurn(printable, user, pass, m));
      && |talk.asked| == 1
      && (Answerable(talk.asked[0]) <==> Detect(lex, m) == CHANGE_NEW)
      && (Detect(lex, m) == CHANGE_NEW ==>
            talk.outcome.Given? && talk.outcome.prompts[0].response == printable(user))
  {
    var t := DaemonTurn(printable, user, pass, m);
    var ps := Predicted(Detect(lex, m));
    var h := Store(false, ps, INVALID_PROMPT);
    assert Insert(lex, EMPTY_STORE, m, true) == (h, true);
    AskedTurn(lex, EMPTY_STORE, t, m);
    if Detect(lex, m) == CHANGE_NEW {
      assert Find(lex, t.peer(Request(ps)).prompts, m) == 0;
    }
  }
}
