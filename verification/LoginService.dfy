/** From a greeter's login in any reachable state to the PAM service that its helper authenticates with. */
module LoginService {
  import opened AuthMessages
  import opened LoginDaemon
  import opened LoginSystem
  import opened LoginSafety
  import opened HelperArgs

  /** What Auth::start puts on the command line. */
  function SettingsOf(server: QString, id: QString, a: AuthState): Settings {
    Settings(server, id, a.sessionPath, a.user, a.autologin, a.greeter)
  }

  /** Greeter logins authenticate as the user given and through the normal service whenever neither that user nor
      the session command in force (the given one, or an older one when a session is reused) is an option word.
      For other words, an accepted command line leads to another service only by the autologin option. */
  lemma GreeterLoginsUseTheNormalService(
    loc: Locale, s: System, e: DaemonEvent, program: QString, server: QString, id: QString, toLong: QString -> int)
    requires Reachable(loc, s) && e.Login? && DaemonEnabled(s, e) && DaemonStep(loc, s, e).run != s.run
    requires Plain(program, SettingsOf(server, id, DaemonStep(loc, s, e).daemon.auth), toLong)
    ensures var a := DaemonStep(loc, s, e).daemon.auth;
      var p := SetUp(ArgList(program, SettingsOf(server, id, a)), toLong);
      && (a.user !in OPTIONS && a.sessionPath !in OPTIONS ==>
            && p == Accepted(SettingsOf(server, id, a))
            && p.settings.user == e.user && Service(p.settings) == NORMAL_SERVICE)
      && (p.Accepted? ==>
            (Service(p.settings) == NORMAL_SERVICE <==> a.sessionPath != AUTOLOGIN && e.user != AUTOLOGIN))
  {
    GreeterLoginsAreOrdinary(loc, s, e);
    OrdinarySettings(program, SettingsOf(server, id, DaemonStep(loc, s, e).daemon.auth), toLong);
  }

  lemma OrdinarySettings(program: QString, a: Settings, toLong: QString -> int)
    requires Plain(program, a, toLong) && !a.autologin && !a.greeter && a.user != PLASMALOGIN
    ensures var p := SetUp(ArgList(program, a), toLong);
      && (a.user !in OPTIONS && a.path !in OPTIONS ==> p == Accepted(a) && Service(a) == NORMAL_SERVICE)
      && (p.Accepted? ==>
            (Service(p.settings) == NORMAL_SERVICE <==> a.path != AUTOLOGIN && a.user != AUTOLOGIN))
  {
    ServiceIsNormal(program, a, toLong);
    if a.user !in OPTIONS && a.path !in OPTIONS {
      LoginsUseTheNormalService(program, a, toLong);
    }
  }

  /** What becomes of the session path: the one given, unless a session is reused. */
  lemma PathInForce(loc: Locale, s: System, e: DaemonEvent)
    requires e.Login? && DaemonEnabled(s, e) && DaemonStep(loc, s, e).run != s.run
    ensures DaemonStep(loc, s, e).daemon.auth.sessionPath
         == if e.reuse then s.daemon.auth.sessionPath else e.session.exec
  {
    DaemonStepShows(loc, s, e);
  }

  /** Autologin authenticates as its user and through its own service, unless a word is misread. */
  lemma AutologinUsesItsService(
    loc: Locale, s: System, e: DaemonEvent, program: QString, server: QString, id: QString, toLong: QString -> int)
    requires Reachable(loc, s) && e.Begin? && DaemonEnabled(s, e) && DaemonStep(loc, s, e).run != s.run
    requires Plain(program, SettingsOf(server, id, DaemonStep(loc, s, e).daemon.auth), toLong)
    ensures var a := SettingsOf(server, id, DaemonStep(loc, s, e).daemon.auth);
      && a.user == e.user && a.autologin && !a.greeter
      && (!Misread(a) ==>
            SetUp(ArgList(program, a), toLong) == Accepted(a) && Service(a) == Text("plasmalogin-autologin"))
  {
    ReachableIsSafe(loc, s);
    StartEffect(s.daemon, e.user, e.session, e.reuse);
    var a := SettingsOf(server, id, DaemonStep(loc, s, e).daemon.auth);
    if !Misread(a) { ServiceByMode(program, a, toLong); }
  }
}
