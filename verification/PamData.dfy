/** The prompt store of the PAM conversation and the conversation callback that drives it. */
module PamData {
  import opened Bytes
  import opened AuthMessages

  datatype Style = EchoOff | EchoOn | ErrorMsg | TextInfo | OtherStyle
  datatype PamMessage = PamMessage(style: Style, text: QString)

  /** The regular expressions, as predicates on the message text. */
  datatype Lexicon = Lexicon(
    password: QString -> bool,
    asksAgain: QString -> bool,
    asksNew: QString -> bool,
    asksOld: QString -> bool,
    changing: QString -> bool)

  const LOGIN_REQUEST := Request([
    Prompt(LOGIN_USER, Text("login:"), false, []),
    Prompt(LOGIN_PASSWORD, Text("Password: "), true, [])])

  const CHANGE_PASS_REQUEST := Request([
    Prompt(CHANGE_CURRENT, Text("(current) UNIX password: "), true, []),
    Prompt(CHANGE_NEW, Text("New password: "), true, []),
    Prompt(CHANGE_REPEAT, Text("Retype new password: "), true, [])])

  const CHANGE_PASS_NO_OLD_REQUEST := Request([
    Prompt(CHANGE_NEW, Text("New password: "), true, []),
    Prompt(CHANGE_REPEAT, Text("Retype new password: "), true, [])])

  const PAM_MAX_NUM_MSG := 32

  function Detect(lex: Lexicon, m: PamMessage): PromptType {
    if m.style != EchoOff then LOGIN_USER
    else if !lex.password(m.text) then UNKNOWN
    else if lex.asksAgain(m.text) then CHANGE_REPEAT
    else if lex.asksNew(m.text) then CHANGE_NEW
    else if lex.asksOld(m.text) then CHANGE_CURRENT
    else LOGIN_PASSWORD
  }

  /** The test of the mutable findPrompt: by text for an unknown message, otherwise by type. */
  predicate Hits(lex: Lexicon, m: PamMessage, p: Prompt) {
    (Detect(lex, m) == UNKNOWN && m.text == p.message) || Detect(lex, m) == p.kind
  }

  /** Index of the first prompt that a message hits, or -1 for the shared invalid prompt. */
  function Find(lex: Lexicon, ps: seq<Prompt>, m: PamMessage): (i: int)
    ensures -1 <= i < |ps|
    ensures i >= 0 ==> Hits(lex, m, ps[i]) && forall j | 0 <= j < i :: !Hits(lex, m, ps[j])
    ensures i == -1 ==> forall j | 0 <= j < |ps| :: !Hits(lex, m, ps[j])
  {
    if ps == [] then -1
    else if Hits(lex, m, ps[0]) then 0
    else
      var i := Find(lex, ps[1..], m);
      assert forall j | 1 <= j < |ps| :: ps[j] == ps[1..][j - 1];
      if i == -1 then -1 else i + 1
  }

  /** QList::removeOne. */
  function RemoveOne(ps: seq<Prompt>, p: Prompt): seq<Prompt> {
    if ps == [] then []
    else if ps[0] == p then ps[1..]
    else [ps[0]] + RemoveOne(ps[1..], p)
  }

  /** The state of PamData, with the process-wide invalidPrompt that lookups can hand out by reference. */
  datatype Store = Store(sent: bool, prompts: seq<Prompt>, shared: Prompt) {
    /** The prompt a lookup refers to. */
    function At(i: int): Prompt
      requires -1 <= i < |prompts|
    {
      if i == -1 then shared else prompts[i]
    }

    function WithMessage(i: int, text: QString): Store
      requires -1 <= i < |prompts|
    {
      if i == -1 then this.(shared := shared.(message := text))
      else this.(prompts := prompts[i := prompts[i].(message := text)])
    }
  }

  const EMPTY_STORE := Store(false, [], INVALID_PROMPT)

  /** The prompts guessed to come with one of this kind; none for most kinds. */
  function Predicted(kind: PromptType): seq<Prompt> {
    if kind == LOGIN_USER then LOGIN_REQUEST.prompts
    else if kind == CHANGE_CURRENT then CHANGE_PASS_REQUEST.prompts
    else if kind == CHANGE_NEW then CHANGE_PASS_NO_OLD_REQUEST.prompts
    else []
  }

  function AsItComes(lex: Lexicon, m: PamMessage): Prompt {
    Prompt(Detect(lex, m), m.text, m.style == EchoOff, [])
  }

  /** The list after a message that is not stored: answers already received are dropped. */
  function Fresh(lex: Lexicon, s: Store, m: PamMessage, predict: bool): seq<Prompt> {
    if predict && Predicted(Detect(lex, m)) != [] then Predicted(Detect(lex, m))
    else (if s.sent then [] else s.prompts) + [AsItComes(lex, m)]
  }

  function Insert(lex: Lexicon, s: Store, m: PamMessage, predict: bool): (Store, bool) {
    var i := Find(lex, s.prompts, m);
    if s.At(i).Valid() then
      if s.sent then (s, false) else (s.WithMessage(i, m.text), true)
    else
      (Store(s.sent && s.prompts == [], Fresh(lex, s, m, predict), s.shared), true)
  }

  datatype InfoKind = InfoNone | InfoUnknown | InfoPassChangeRequired

  function HandleInfo(lex: Lexicon, s: Store, m: PamMessage, predict: bool): (Store, InfoKind) {
    if lex.changing(m.text) then
      (if predict then s.(prompts := CHANGE_PASS_REQUEST.prompts) else s, InfoPassChangeRequired)
    else (s, InfoUnknown)
  }

  /** Looks a message up, takes its response and removes the prompt. */
  function TakeResponse(lex: Lexicon, s: Store, m: PamMessage): (Store, Prompt) {
    var p := s.At(Find(lex, s.prompts, m));
    var left := RemoveOne(s.prompts, p);
    (Store(s.sent && left != [], left, s.shared), p)
  }

  function RequestToSend(s: Store): Request {
    if s.sent then Request([]) else Request(s.prompts)
  }

  predicate SameQuestion(p: Prompt, q: Prompt) {
    p.kind == q.kind && p.message == q.message && p.hidden == q.hidden
  }

  predicate Mirrors(r: Request, ps: seq<Prompt>) {
    |r.prompts| == |ps| && forall i | 0 <= i < |ps| :: SameQuestion(r.prompts[i], ps[i])
  }

  function Complete(s: Store, r: Request): Store {
    if Mirrors(r, s.prompts) then s.(prompts := r.prompts, sent := true) else s
  }

  // ------------------------------------------------------------ conversation

  datatype Notice = ErrorNotice(text: QString) | InfoNotice(text: QString, kind: InfoKind)

  /** The first loop of a conversation: the store, the newRequest flag, what was passed on to the daemon. */
  datatype Heard = Heard(store: Store, newRequest: bool, notices: seq<Notice>)

  function HearOne(lex: Lexicon, h: Heard, m: PamMessage, single: bool): Heard {
    match m.style
    case EchoOff =>
      var (s, flag) := Insert(lex, h.store, m, single);
      h.(store := s, newRequest := flag)
    case EchoOn =>
      var (s, flag) := Insert(lex, h.store, m, single);
      h.(store := s, newRequest := flag)
    case ErrorMsg => h.(notices := h.notices + [ErrorNotice(m.text)])
    case TextInfo =>
      var (s, kind) := HandleInfo(lex, h.store, m, single);
      h.(store := s, notices := h.notices + [InfoNotice(m.text, kind)])
    case OtherStyle => h
  }

  function Hear(lex: Lexicon, s: Store, msgs: seq<PamMessage>, single: bool): Heard {
    if msgs == [] then Heard(s, false, [])
    else HearOne(lex, Hear(lex, s, msgs[..|msgs| - 1], single), msgs[|msgs| - 1], single)
  }

  /** The second loop: the prompts whose responses are handed out, one per message. */
  function Deliver(lex: Lexicon, s: Store, msgs: seq<PamMessage>): (r: (Store, seq<Prompt>))
    ensures |r.1| == |msgs|
  {
    if msgs == [] then (s, [])
    else
      var (s1, ps) := Deliver(lex, s, msgs[..|msgs| - 1]);
      var (s2, p) := TakeResponse(lex, s1, msgs[|msgs| - 1]);
      (s2, ps + [p])
  }

  /** One call of the callback, with the process that answers requests (an empty answer is a failure). */
  datatype Turn = Turn(msgs: seq<PamMessage>, peer: Request -> Request)

  /** given: the prompts handed out, or none when the callback fails with PAM_CONV_ERR. */
  datatype Outcome = ConvError | Given(prompts: seq<Prompt>)
  datatype Talk = Talk(store: Store, asked: seq<Request>, accepted: bool, notices: seq<Notice>, outcome: Outcome)

  function Conversation(lex: Lexicon, s: Store, t: Turn): Talk {
    if !(1 <= |t.msgs| <= PAM_MAX_NUM_MSG) then Talk(s, [], false, [], ConvError)
    else
      var h := Hear(lex, s, t.msgs, |t.msgs| == 1);
      var request := RequestToSend(h.store);
      if h.newRequest && request.Valid() then
        var received := t.peer(request);
        if !received.Valid() then Talk(h.store, [request], false, h.notices, ConvError)
        else
          var (s', ps) := Deliver(lex, Complete(h.store, received), t.msgs);
          Talk(s', [request], Mirrors(received, h.store.prompts), h.notices, Given(ps))
      else
        var (s', ps) := Deliver(lex, h.store, t.msgs);
        Talk(s', [], false, h.notices, Given(ps))
  }

  // ---------------------------------------------------------------- the classes

  class PamData {
    const lex: Lexicon
    var sent: bool
    var prompts: seq<Prompt>
    var invalidPrompt: Prompt

    constructor (lex: Lexicon)
      ensures this.lex == lex && Model() == EMPTY_STORE
    {
      this.lex, sent, prompts, invalidPrompt := lex, false, [], INVALID_PROMPT;
    }

    function Model(): Store
      reads this
    {
      Store(sent, prompts, invalidPrompt)
    }

    method FindPrompt(m: PamMessage) returns (i: int)
      ensures i == Find(lex, prompts, m)
    {
      var kind := Detect(lex, m);
      for j := 0 to |prompts|
        invariant forall k | 0 <= k < j :: !Hits(lex, m, prompts[k])
      {
        if kind == UNKNOWN && m.text == prompts[j].message {
          return j;
        }
        if kind == prompts[j].kind {
          return j;
        }
      }
      return -1;
    }

    method InsertPrompt(m: PamMessage, predict: bool) returns (asking: bool)
      modifies this
      ensures (Model(), asking) == Insert(lex, old(Model()), m, predict)
    {
      var i := FindPrompt(m);
      var p := if i == -1 then invalidPrompt else prompts[i];
      if p.Valid() {
        if sent {
          return false;
        }
        if i == -1 {
          invalidPrompt := invalidPrompt.(message := m.text);
        } else {
          prompts := prompts[i := p.(message := m.text)];
        }
        return true;
      } else if |prompts| != 0 {
        if sent {
          prompts, sent := [], false;
        }
      }
      if predict {
        var kind := Detect(lex, m);
        if kind == LOGIN_USER {
          prompts := LOGIN_REQUEST.prompts;
          return true;
        } else if kind == CHANGE_CURRENT {
          prompts := CHANGE_PASS_REQUEST.prompts;
          return true;
        } else if kind == CHANGE_NEW {
          prompts := CHANGE_PASS_NO_OLD_REQUEST.prompts;
          return true;
        }
      }
      prompts := prompts + [AsItComes(lex, m)];
      return true;
    }

    method HandleInfoMessage(m: PamMessage, predict: bool) returns (kind: InfoKind)
      modifies this`prompts
      ensures (Model(), kind) == HandleInfo(lex, old(Model()), m, predict)
    {
      if lex.changing(m.text) {
        if predict {
          prompts := CHANGE_PASS_REQUEST.prompts;
        }
        return InfoPassChangeRequired;
      }
      return InfoUnknown;
    }

    method GetResponse(m: PamMessage) returns (response: Blob, ghost source: Prompt)
      modifies this`sent, this`prompts
      ensures (Model(), source) == TakeResponse(lex, old(Model()), m) && response == source.response
    {
      var i := FindPrompt(m);
      var p := if i == -1 then invalidPrompt else prompts[i];
      response, source := p.response, p;
      prompts := RemoveOne(prompts, p);
      if |prompts| == 0 {
        sent := false;
      }
    }

    function GetRequest(): Request
      reads this
    {
      RequestToSend(Model())
    }

    method CompleteRequest(request: Request)
      modifies this`sent, this`prompts
      ensures Model() == Complete(old(Model()), request)
    {
      if |request.prompts| != |prompts| {
        return;
      }
      for i := 0 to |request.prompts|
        invariant forall k | 0 <= k < i :: SameQuestion(request.prompts[k], prompts[k])
        invariant Model() == old(Model())
      {
        var p, q := request.prompts[i], prompts[i];
        if p.kind != q.kind || p.message != q.message || p.hidden != q.hidden {
          return;
        }
      }
      prompts := request.prompts;
      sent := true;
    }
  }

  class PamBackend {
    const data: PamData

    constructor (data: PamData)
      ensures this.data == data
    {
      this.data := data;
    }

    /** The first loop: newRequest is overwritten by every prompt message. */
    method HearMessages(msgs: seq<PamMessage>) returns (newRequest: bool, notices: seq<Notice>)
      modifies data
      ensures Heard(data.Model(), newRequest, notices) == Hear(data.lex, old(data.Model()), msgs, |msgs| == 1)
    {
      newRequest, notices := false, [];
      var n := |msgs|;
      for i := 0 to n
        invariant Heard(data.Model(), newRequest, notices) == Hear(data.lex, old(data.Model()), msgs[..i], n == 1)
      {
        var m := msgs[i];
        assert msgs[..i + 1][..i] == msgs[..i];
        match m.style {
          case EchoOff => newRequest := data.InsertPrompt(m, n == 1);
          case EchoOn => newRequest := data.InsertPrompt(m, n == 1);
          case ErrorMsg => notices := notices + [ErrorNotice(m.text)];
          case TextInfo =>
            var kind := data.HandleInfoMessage(m, n == 1);
            notices := notices + [InfoNotice(m.text, kind)];
          case OtherStyle =>
        }
      }
      assert msgs[..n] == msgs;
    }

    /** The second loop: one response per message, and the prompts they came from. */
    method HandOut(msgs: seq<PamMessage>) returns (responses: seq<Blob>, ghost given: seq<Prompt>)
      modifies data
      ensures (data.Model(), given) == Deliver(data.lex, old(data.Model()), msgs)
      ensures |responses| == |given| == |msgs|
      ensures forall k | 0 <= k < |msgs| :: responses[k] == given[k].response
    {
      responses, given := [], [];
      for i := 0 to |msgs|
        invariant (data.Model(), given) == Deliver(data.lex, old(data.Model()), msgs[..i])
        invariant |responses| == |given| == i && forall k | 0 <= k < i :: responses[k] == given[k].response
      {
        assert msgs[..i + 1][..i] == msgs[..i];
        var response, source := data.GetResponse(msgs[i]);
        responses, given := responses + [response], given + [source];
      }
      assert msgs[..|msgs|] == msgs;
    }

    /** The conversation callback; ok is false when it returns PAM_CONV_ERR. */
    method Converse(msgs: seq<PamMessage>, peer: Request -> Request)
      returns (ok: bool, responses: seq<Blob>, notices: seq<Notice>, asked: seq<Request>, ghost given: seq<Prompt>)
      modifies data
      ensures var talk := Conversation(data.lex, old(data.Model()), Turn(msgs, peer));
        && data.Model() == talk.store && asked == talk.asked && notices == talk.notices
        && talk.outcome == (if ok then Given(given) else ConvError)
      ensures ok ==> |responses| == |given| == |msgs|
      ensures ok ==> forall k | 0 <= k < |msgs| :: responses[k] == given[k].response
      ensures !ok <==> |msgs| == 0 || |msgs| > 32 || (asked != [] && peer(asked[0]).prompts == [])
      ensures !ok ==> responses == []
    {
      ok, responses, notices, asked, given := false, [], [], [], [];
      var newRequest, n := false, |msgs|;
      if n <= 0 || n > PAM_MAX_NUM_MSG {
        return;
      }
      newRequest, notices := HearMessages(msgs);
      if newRequest {
        var request := data.GetRequest();
        if request.Valid() {
          asked := [request];
          var received := peer(request);
          if !received.Valid() {
            return;
          }
          data.CompleteRequest(received);
        }
      }
      responses, given := HandOut(msgs);
      ok := true;
    }
  }
}
