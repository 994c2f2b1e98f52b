/** The helper's command line: what Auth::start writes, what HelperApp::setUp reads back, and the PAM service
    that PamBackend::start chooses from it. */
module HelperArgs {
  import opened AuthMessages

  /** The settings of an Auth, with the socket address and the decimal text of its id. */
  datatype Settings = Settings(
    server: QString, id: QString, path: QString, user: QString, autologin: bool, greeter: bool)

  const SOCKET: QString := Text("--socket")
  const ID: QString := Text("--id")
  const START: QString := Text("--start")
  const USER: QString := Text("--user")
  const DISPLAY_SERVER: QString := Text("--display-server")
  const AUTOLOGIN: QString := Text("--autologin")
  const GREETER: QString := Text("--greeter")

  const OPTIONS: set<QString> := {SOCKET, ID, START, USER, DISPLAY_SERVER, AUTOLOGIN, GREETER}

  function Optional(given: bool, words: seq<QString>): seq<QString> { if given then words else [] }

  function ArgList(program: QString, a: Settings): seq<QString> {
    [program] + [SOCKET, a.server] + [ID, a.id]
    + Optional(a.path != [], [START, a.path])
    + Optional(a.user != [], [USER, a.user])
    + Optional(a.autologin, [AUTOLOGIN])
    + Optional(a.greeter, [GREETER])
  }

  lemma OneBranch(args: seq<QString>, given: bool, words: seq<QString>)
    ensures args + Optional(given, words) == if given then args + words else args
  {
  }

  /** The list that Auth::start builds up. */
  method StartArguments(program: QString, a: Settings) returns (args: seq<QString>)
    ensures args == ArgList(program, a)
  {
    args := [program];
    args := args + [SOCKET, a.server];
    args := args + [ID, a.id];
    OneBranch(args, a.path != [], [START, a.path]);
    if a.path != [] {
      args := args + [START, a.path];
    }
    OneBranch(args, a.user != [], [USER, a.user]);
    if a.user != [] {
      args := args + [USER, a.user];
    }
    OneBranch(args, a.autologin, [AUTOLOGIN]);
    if a.autologin {
      args := args + [AUTOLOGIN];
    }
    OneBranch(args, a.greeter, [GREETER]);
    if a.greeter {
      args := args + [GREETER];
    }
  }

  /** QStringList::indexOf. */
  function IndexOf(args: seq<QString>, w: QString): (pos: int)
    ensures -1 <= pos < |args|
    ensures pos >= 0 ==> args[pos] == w && forall j | 0 <= j < pos :: args[j] != w
    ensures pos == -1 ==> forall j | 0 <= j < |args| :: args[j] != w
  {
    if args == [] then -1
    else if args[0] == w then 0
    else
      var p := IndexOf(args[1..], w);
      assert forall j | 1 <= j < |args| :: args[j] == args[1..][j - 1];
      if p == -1 then -1 else p + 1
  }

  datatype Parse = Rejected | Accepted(settings: Settings)

  /** An option is there but has nothing after it. */
  predicate Dangling(args: seq<QString>, w: QString) { IndexOf(args, w) >= 0 && IndexOf(args, w) >= |args| - 1 }

  function ValueOf(args: seq<QString>, w: QString): QString
    requires !Dangling(args, w)
  {
    if IndexOf(args, w) >= 0 then args[IndexOf(args, w) + 1] else []
  }

  /** setUp; toLong is QString::toLongLong. The value of --display-server is required but not used. */
  function SetUp(args: seq<QString>, toLong: QString -> int): Parse {
    if Dangling(args, SOCKET) || Dangling(args, ID) || Dangling(args, START)
       || Dangling(args, USER) || Dangling(args, DISPLAY_SERVER) then Rejected
    else
      var server, id := ValueOf(args, SOCKET), ValueOf(args, ID);
      if server == [] || IndexOf(args, ID) == -1 || toLong(id) <= 0 then Rejected
      else
        Accepted(Settings(server, id, ValueOf(args, START), ValueOf(args, USER),
                          IndexOf(args, AUTOLOGIN) >= 0, IndexOf(args, GREETER) >= 0))
  }

  /** Word w stands last, and nowhere before. */
  predicate Unfinished(args: seq<QString>, w: QString) {
    args != [] && args[|args| - 1] == w && w !in args[..|args| - 1]
  }

  /** Word w stands somewhere, and v follows where it stands first. */
  ghost predicate Followed(args: seq<QString>, w: QString, v: QString) {
    exists i: nat :: i + 1 < |args| && args[i] == w && args[i + 1] == v && w !in args[..i]
  }

  lemma DanglingMeansLast(args: seq<QString>, w: QString)
    ensures Dangling(args, w) <==> Unfinished(args, w)
    ensures !Dangling(args, w) && w in args ==> Followed(args, w, ValueOf(args, w))
    ensures !Dangling(args, w) && w !in args ==> ValueOf(args, w) == []
  {
    var i := IndexOf(args, w);
    if i >= 0 {
      assert w !in args[..i];
      if i + 1 < |args| {
        assert args[..|args| - 1][i] == w;
        assert Followed(args, w, args[i + 1]);
      }
    }
  }

  lemma ValueIsUnique(args: seq<QString>, w: QString, v: QString)
    requires Followed(args, w, v)
    ensures !Dangling(args, w) && ValueOf(args, w) == v
  {
    var i: nat :| i + 1 < |args| && args[i] == w && args[i + 1] == v && w !in args[..i];
    assert forall j | 0 <= j < i :: args[..i][j] == args[j];
    assert IndexOf(args, w) == i;
  }

  /** For every list of words: a command line is accepted exactly if no option that takes a value ends it, a server
      is named, and an id that is a positive number. */
  lemma AcceptedIff(args: seq<QString>, toLong: QString -> int)
    ensures SetUp(args, toLong).Accepted? <==>
      && !Unfinished(args, Text("--start")) && !Unfinished(args, Text("--user"))
      && !Unfinished(args, Text("--display-server"))
      && (exists server :: Followed(args, Text("--socket"), server) && server != [])
      && (exists id :: Followed(args, Text("--id"), id) && toLong(id) > 0)
  {
    DanglingMeansLast(args, SOCKET);
    DanglingMeansLast(args, ID);
    DanglingMeansLast(args, START);
    DanglingMeansLast(args, USER);
    DanglingMeansLast(args, DISPLAY_SERVER);
    if server :| Followed(args, SOCKET, server) && server != [] { ValueIsUnique(args, SOCKET, server); }
    if id :| Followed(args, ID, id) && toLong(id) > 0 { ValueIsUnique(args, ID, id); }
  }

  /** What the caller of Auth::start guarantees: its own words are not option words. */
  predicate Plain(program: QString, a: Settings, toLong: QString -> int) {
    program !in OPTIONS && a.server !in OPTIONS && a.server != [] && a.id !in OPTIONS && toLong(a.id) > 0
  }

  /** A session command or user name that is taken for an option. */
  predicate Misread(a: Settings) {
    || (a.path == USER && a.user != USER)
    || (a.path == [] && a.user == START)
    || (!a.autologin && (a.path == AUTOLOGIN || a.user == AUTOLOGIN))
    || (!a.greeter && (a.path == GREETER || a.user == GREETER))
    || (!a.autologin && !a.greeter
        && (a.path == DISPLAY_SERVER) != (a.user == DISPLAY_SERVER)
        && (a.user == DISPLAY_SERVER || a.user == []))
  }

  /** Where each word stands. */
  lemma Layout(program: QString, a: Settings)
    ensures var args := ArgList(program, a);
      var u := if a.path != [] then 7 else 5;
      var f := if a.user != [] then u + 2 else u;
      var g := if a.autologin then f + 1 else f;
      && |args| == (if a.greeter then g + 1 else g)
      && args[0] == program && args[1] == SOCKET && args[2] == a.server && args[3] == ID && args[4] == a.id
      && (a.path != [] ==> args[5] == START && args[6] == a.path)
      && (a.user != [] ==> args[u] == USER && args[u + 1] == a.user)
      && (a.autologin ==> args[f] == AUTOLOGIN)
      && (a.greeter ==> args[g] == GREETER)
  {
  }

  /** The option words differ already in length. */
  lemma OptionsDiffer()
    ensures |SOCKET| == 8 && |ID| == 4 && |START| == 7 && |USER| == 6
         && |DISPLAY_SERVER| == 16 && |AUTOLOGIN| == 11 && |GREETER| == 9
  {
  }

  lemma FirstAt(args: seq<QString>, w: QString, i: nat)
    requires i < |args| && args[i] == w && forall j | 0 <= j < i :: args[j] != w
    ensures IndexOf(args, w) == i
  {
  }

  lemma SocketAndId(program: QString, a: Settings, toLong: QString -> int)
    requires Plain(program, a, toLong)
    ensures var args := ArgList(program, a);
      IndexOf(args, SOCKET) == 1 && IndexOf(args, ID) == 3
  {
    Layout(program, a);
    OptionsDiffer();
    FirstAt(ArgList(program, a), SOCKET, 1);
    FirstAt(ArgList(program, a), ID, 3);
  }

  lemma StartIsFound(program: QString, a: Settings, toLong: QString -> int)
    requires Plain(program, a, toLong)
    ensures var args := ArgList(program, a);
      (!Dangling(args, START) && ValueOf(args, START) == a.path) <==> !(a.path == [] && a.user == START)
  {
    Layout(program, a);
    OptionsDiffer();
    var args := ArgList(program, a);
    if a.path != [] { FirstAt(args, START, 5); }
    else if a.user == START { FirstAt(args, START, 6); }
  }

  lemma UserIsFound(program: QString, a: Settings, toLong: QString -> int)
    requires Plain(program, a, toLong)
    ensures var args := ArgList(program, a);
      (!Dangling(args, USER) && ValueOf(args, USER) == a.user) <==> !(a.path == USER && a.user != USER)
  {
    Layout(program, a);
    OptionsDiffer();
    var args := ArgList(program, a);
    if a.path == USER { FirstAt(args, USER, 6); }
    else if a.user != [] { FirstAt(args, USER, if a.path != [] then 7 else 5); }
  }

  lemma AutologinIsFound(program: QString, a: Settings, toLong: QString -> int)
    requires Plain(program, a, toLong)
    ensures (IndexOf(ArgList(program, a), AUTOLOGIN) >= 0) == a.autologin
      <==> !(!a.autologin && (a.path == AUTOLOGIN || a.user == AUTOLOGIN))
  {
    Layout(program, a);
    OptionsDiffer();
  }

  lemma GreeterIsFound(program: QString, a: Settings, toLong: QString -> int)
    requires Plain(program, a, toLong)
    ensures (IndexOf(ArgList(program, a), GREETER) >= 0) == a.greeter
      <==> !(!a.greeter && (a.path == GREETER || a.user == GREETER))
  {
    Layout(program, a);
    OptionsDiffer();
  }

  lemma DisplayServerIsNotLast(program: QString, a: Settings, toLong: QString -> int)
    requires Plain(program, a, toLong)
    ensures Dangling(ArgList(program, a), DISPLAY_SERVER) ==> Misread(a)
    ensures !a.autologin && !a.greeter && a.path != DISPLAY_SERVER && a.user == DISPLAY_SERVER
        ==> Dangling(ArgList(program, a), DISPLAY_SERVER)
    ensures !a.autologin && !a.greeter && a.path == DISPLAY_SERVER && a.user == []
        ==> Dangling(ArgList(program, a), DISPLAY_SERVER)
  {
    Layout(program, a);
    OptionsDiffer();
  }

  /** The helper reads back what Auth::start wrote exactly when no word is misread. */
  lemma ArgumentsRoundTrip(program: QString, a: Settings, toLong: QString -> int)
    requires Plain(program, a, toLong)
    ensures SetUp(ArgList(program, a), toLong) == Accepted(a) <==> !Misread(a)
  {
    Layout(program, a);
    SocketAndId(program, a, toLong);
    StartIsFound(program, a, toLong);
    UserIsFound(program, a, toLong);
    AutologinIsFound(program, a, toLong);
    GreeterIsFound(program, a, toLong);
    DisplayServerIsNotLast(program, a, toLong);
  }

  // ------------------------------------------------------------ the service

  const NORMAL_SERVICE: QString := Text("plasmalogin")
  const GREETER_SERVICE: QString := Text("plasmalogin-greeter")
  const AUTOLOGIN_SERVICE: QString := Text("plasmalogin-autologin")

  /** PamBackend::start. */
  function Service(a: Settings): QString {
    if a.user == PLASMALOGIN && a.greeter then GREETER_SERVICE
    else if a.autologin then AUTOLOGIN_SERVICE
    else NORMAL_SERVICE
  }

  /** A helper launched for a greeter's login (without autologin or greeter mode) authenticates through the
      normal service, and as the user given, whenever the user name and the session command are no option words. */
  lemma LoginsUseTheNormalService(program: QString, a: Settings, toLong: QString -> int)
    requires Plain(program, a, toLong) && !a.autologin && !a.greeter
    requires a.path !in OPTIONS && a.user !in OPTIONS
    ensures var p := SetUp(ArgList(program, a), toLong);
      p == Accepted(a) && Service(a) == NORMAL_SERVICE
  {
    ArgumentsRoundTrip(program, a, toLong);
  }

  /** The same with any words whatever: if the helper accepts its command line, the one way to another service is
      the word that switches autologin on. (The greeter's own account cannot be logged in to.) */
  lemma ServiceIsNormal(program: QString, a: Settings, toLong: QString -> int)
    requires Plain(program, a, toLong) && !a.autologin && !a.greeter && a.user != PLASMALOGIN
    ensures var p := SetUp(ArgList(program, a), toLong);
      p.Accepted? ==>
        (Service(p.settings) == NORMAL_SERVICE <==> a.path != AUTOLOGIN && a.user != AUTOLOGIN)
  {
    AutologinIsFound(program, a, toLong);
    GreeterIsFound(program, a, toLong);
    UserIsNotTheGreeter(program, a, toLong);
  }

  lemma UserIsNotTheGreeter(program: QString, a: Settings, toLong: QString -> int)
    requires Plain(program, a, toLong) && !a.autologin && !a.greeter && a.user != PLASMALOGIN
    ensures var args := ArgList(program, a);
      !Dangling(args, USER) ==> ValueOf(args, USER) != PLASMALOGIN
  {
    var args := ArgList(program, a);
    Layout(program, a);
    OptionsDiffer();
    UserIsFound(program, a, toLong);
    if a.path == USER { FirstAt(args, USER, 6); }
  }

  predicate GreeterItself(a: Settings) { a.greeter && a.user == Text("plasmalogin") }

  /** Which of the three services a launched helper authenticates with, if no word of it is misread: that of the
      greeter exactly for the greeter's own account in greeter mode, otherwise that of autologin exactly in autologin
      mode. Greeter mode with another account is nothing special. */
  lemma ServiceByMode(program: QString, a: Settings, toLong: QString -> int)
    requires Plain(program, a, toLong) && !Misread(a)
    ensures SetUp(ArgList(program, a), toLong) == Accepted(a)
    ensures Service(a) == Text("plasmalogin-greeter") <==> GreeterItself(a)
    ensures Service(a) == Text("plasmalogin-autologin") <==> a.autologin && !GreeterItself(a)
    ensures Service(a) == Text("plasmalogin") <==> !a.autologin && !GreeterItself(a)
  {
    ArgumentsRoundTrip(program, a, toLong);
    assert |NORMAL_SERVICE| == 11 && |GREETER_SERVICE| == 19 && |AUTOLOGIN_SERVICE| == 21;
  }

  /** A whole command line, word by word. */
  lemma CommandLine(program: QString, server: QString, id: QString)
    ensures ArgList(program, Settings(server, id, Text("startplasma-wayland"), Text("ada"), true, false))
         == [program, Text("--socket"), server, Text("--id"), id, Text("--start"), Text("startplasma-wayland"),
             Text("--user"), Text("ada"), Text("--autologin")]
    ensures ArgList(program, Settings(server, id, [], Text("plasmalogin"), false, true))
         == [program, Text("--socket"), server, Text("--id"), id, Text("--user"), Text("plasmalogin"), Text("--greeter")]
  {
    Layout(program, Settings(server, id, Text("startplasma-wayland"), Text("ada"), true, false));
    Layout(program, Settings(server, id, [], Text("plasmalogin"), false, true));
  }
}
