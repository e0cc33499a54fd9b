// The protocol with the real compiler and merge in it.
module ApplyCorrect {
  import opened Wrappers
  import opened Library
  import opened Domain
  import opened Compiler
  import opened ConfigMerge
  import opened ConfigMergeLaws
  import opened CompilerProperties
  import opened ApplyProtocol
  import opened ApplySafety
  import opened ApplyService
  import Routing
  import RoutingCorrect
  import UserPart

  ghost function MergeFor(lib: Library, text: string, p: Preview): Option<string> {
    match MergeText(lib, text, p)
    case Ok(candidate) => Some(candidate)
    case Err(_) => None
  }

  // The service's collaborators: the compiler, the merge and the content hash.
  ghost predicate IsReal(env: Env, lib: Library) {
    && (forall snapshot :: env.compile(snapshot) == Compiled(lib, snapshot))
    && (forall text, p :: env.merge(text, p) == MergeFor(lib, text, p))
    && env.hash == lib.contentHash
  }

  // A configuration text with its managed entries stripped.
  datatype Stripped = Configuration(view: UserView) | OtherText(text: string)

  function Strip(lib: Library, text: string): Stripped {
    match lib.parseYaml(text)
    case Some(Mapping(root)) => Configuration(View(root))
    case _ => OtherText(text)
  }

  lemma MergeKeepsStripped(lib: Library, text: string, p: Preview)
    requires LawfulYaml(lib) && ManagedPreview(p) && MergeText(lib, text, p).Ok?
    ensures Strip(lib, MergeText(lib, text, p).value) == Strip(lib, text)
  {
    MergeTextIsMergedTree(lib, text, p);
    MergeKeepsView(lib.parseYaml(text).value.entries, p);
  }

  lemma RealMergeKeepsUser(env: Env, lib: Library)
    requires IsReal(env, lib) && LawfulAddresses(lib) && LawfulYaml(lib)
    ensures KeepsUser(env, text => Strip(lib, text))
  {
    var strip := text => Strip(lib, text);
    forall text, p | Produced(env, p) && env.merge(text, p).Some?
      ensures strip(env.merge(text, p).value) == strip(text)
    {
      var snapshot :| env.compile(snapshot) == Some(p);
      CompiledIsManaged(lib, snapshot);
      assert env.merge(text, p) == MergeFor(lib, text, p);
      MergeKeepsStripped(lib, text, p);
    }
  }

  // Over any interleaving of applications and validations, any failures and any crashes:
  // the file without its managed entries never changes, a changed file is always covered
  // by its backup and audit row, and every rollback row ever written has its backup.
  lemma EveryRunIsSafe(env: Env, lib: Library, s: State, actions: seq<Action>)
    requires IsReal(env, lib) && LawfulAddresses(lib) && LawfulYaml(lib)
    requires Initial(env, s) && Run(env, s, actions).Some?
    ensures var after := Run(env, s, actions).value;
      && SameUser(lib, s.world.config, after.world.config)
      && Strip(lib, after.world.config) == Strip(lib, s.world.config)
      && Covered(env, after)
      && BackupsFound(env, after.world)
  {
    RealMergeKeepsUser(env, lib);
    UserPartNeverChanges(env, text => Strip(lib, text), s, actions);
    EveryStateCovered(env, text => Strip(lib, text), s, actions);
    SameStripSameUser(lib, s.world.config, Run(env, s, actions).value.world.config);
  }

  // Both texts are mappings with the same user part, or they are the same text.
  ghost predicate SameUser(lib: Library, a: string, b: string) {
    a == b || exists u :: UserPart.IsPartOf(lib, a, u) && UserPart.IsPartOf(lib, b, u)
  }

  lemma SameStripSameUser(lib: Library, a: string, b: string)
    ensures Strip(lib, a) == Strip(lib, b) <==> SameUser(lib, a, b)
  {
    forall text, root: seq<Entry>, u | lib.parseYaml(text) == Some(Mapping(root))
      ensures UserPart.IsPartOf(lib, text, u) <==> u == View(root)
    {
      UserPart.UserPartIff(root, u);
    }
    if Strip(lib, a) == Strip(lib, b) && a != b {
      var root := lib.parseYaml(a).value.entries;
      assert UserPart.IsPartOf(lib, a, View(root)) && UserPart.IsPartOf(lib, b, View(root));
    }
  }

  // The same for the service object: everything it has ever done was such a run, and so
  // was every beginning of it.
  lemma ServiceIsSafe(service: Service, lib: Library, k: nat)
    requires service.Valid() && IsReal(service.env, lib) && LawfulAddresses(lib) && LawfulYaml(lib)
    requires Initial(service.env, service.start) && k <= |service.actions|
    ensures Run(service.env, service.start, service.actions) == Some(State(service.Now(), service.pc))
    ensures Run(service.env, service.start, service.actions[..k]).Some?
    ensures var mid := Run(service.env, service.start, service.actions[..k]).value;
      SameUser(lib, service.start.world.config, mid.world.config) && Covered(service.env, mid)
  {
    RunsToIsRun(service.env, service.start, service.actions, State(service.Now(), service.pc));
    PrefixRuns(service.env, service.start, service.actions, k);
    EveryRunIsSafe(service.env, lib, service.start, service.actions[..k]);
  }

  lemma {:induction false} PrefixRuns(env: Env, s: State, actions: seq<Action>, k: nat)
    requires Run(env, s, actions).Some? && k <= |actions|
    ensures Run(env, s, actions[..k]).Some?
    decreases |actions|
  {
    if k == |actions| {
      assert actions[..k] == actions;
    } else {
      PrefixRuns(env, s, actions[..|actions| - 1], k);
      assert actions[..|actions| - 1][..k] == actions[..k];
    }
  }

  // The candidate of a prepared application routes as the canvas wants, with the previous
  // file's user rules as the fallback.
  lemma CandidateRoutesLikeCanvas(env: Env, lib: Library, user: Routing.UserSemantics, w: World, snapshot: Snapshot, f: Faults,
                                      pkt: Routing.Packet)
    requires IsReal(env, lib) && LawfulAddresses(lib) && LawfulYaml(lib)
    requires PreparedBy(env, w, snapshot, f)
    requires Distinguishes(lib, "flowcanvas", TargetNames(CanvasLines(lib, snapshot)))
    requires Routing.MatchedSourcesRepresentable(lib, snapshot, pkt)
    ensures RoutingCorrect.DecidedByCanvas(lib, snapshot, pkt,
      RoutingCorrect.RouteText(lib, user, JobFor(env, w, snapshot, f).candidate, pkt),
      RoutingCorrect.RouteUserText(lib, user, w.config, pkt))
  {
    var p := env.compile(snapshot).value;
    assert env.compile(snapshot) == Compiled(lib, snapshot);
    assert env.merge(w.config, p) == MergeFor(lib, w.config, p);
    RoutingCorrect.CandidateMeaning(lib, user, snapshot, w.config, pkt);
  }

  // What the user's own rules decide depends on the stripped file only.
  lemma StrippedDecidesFallback(lib: Library, user: Routing.UserSemantics, a: string, b: string, pkt: Routing.Packet)
    requires Strip(lib, a) == Strip(lib, b)
    ensures RoutingCorrect.RouteUserText(lib, user, a, pkt) == RoutingCorrect.RouteUserText(lib, user, b, pkt)
  {
  }

  // Whatever the user's own rules mean, the text routes every packet that no IPv4-mapped
  // source matches as the canvas wants, with the base's user rules as the fallback.
  ghost predicate RoutesLikeCanvas(lib: Library, snapshot: Snapshot, text: string, base: string) {
    forall user: Routing.UserSemantics, pkt :: Routing.MatchedSourcesRepresentable(lib, snapshot, pkt) ==>
      RoutedLikeCanvas(lib, snapshot, user, text, base, pkt)
  }

  ghost predicate RoutedLikeCanvas(lib: Library, snapshot: Snapshot, user: Routing.UserSemantics, text: string, base: string,
                                   pkt: Routing.Packet)
  {
    exists fallback ::
      && UserDecides(lib, user, base, pkt, fallback)
      && RoutingCorrect.DecidedByCanvas(lib, snapshot, pkt, RoutingCorrect.RouteText(lib, user, text, pkt), fallback)
  }

  lemma PacketRouted(lib: Library, snapshot: Snapshot, user: Routing.UserSemantics, text: string, base: string, pkt: Routing.Packet)
    requires lib.parseYaml(base).Some? && lib.parseYaml(base).value.Mapping?
    requires RoutingCorrect.DecidedByCanvas(lib, snapshot, pkt,
      RoutingCorrect.RouteText(lib, user, text, pkt), RoutingCorrect.RouteUserText(lib, user, base, pkt))
    ensures RoutedLikeCanvas(lib, snapshot, user, text, base, pkt)
  {
    UserRulesDecide(lib, user, base, pkt);
  }

  // What the user's own rules of a text, in their order, decide.
  ghost predicate UserDecides(lib: Library, user: Routing.UserSemantics, text: string, pkt: Routing.Packet, decision: Option<string>) {
    exists u :: UserPart.IsPartOf(lib, text, u) && decision == Routing.FirstUserMatch(user, u, u.rules, pkt)
  }

  lemma UserRulesDecide(lib: Library, user: Routing.UserSemantics, text: string, pkt: Routing.Packet)
    requires lib.parseYaml(text).Some? && lib.parseYaml(text).value.Mapping?
    ensures UserDecides(lib, user, text, pkt, RoutingCorrect.RouteUserText(lib, user, text, pkt))
  {
    var root := lib.parseYaml(text).value.entries;
    UserPart.UserPartIff(root, View(root));
    assert UserPart.IsPartOf(lib, text, View(root));
  }

  // After a successful application, whatever the service did before: the file itself
  // routes like the canvas, with the user's rules of the very first file as the fallback,
  // and it is what the kernel runs.
  method ApplyCanvas(service: Service, ghost lib: Library, snapshot: Snapshot, f: Faults) returns (r: ApplyResult)
    requires service.Valid() && service.pc == Idle && Initial(service.env, service.start)
    requires IsReal(service.env, lib) && LawfulAddresses(lib) && LawfulYaml(lib)
    requires Distinguishes(lib, "flowcanvas", TargetNames(CanvasLines(lib, snapshot)))
    modifies service, service.audit
    ensures service.Valid() && service.pc == Idle
    ensures r.ok ==> service.running == service.config
    ensures r.ok ==> RoutesLikeCanvas(lib, snapshot, service.config, service.start.world.config)
  {
    ghost var before, first := service.Now(), service.start.world.config;
    ServiceKeepsStripped(service, lib);
    r := service.Apply(snapshot, f);
    if r.ok {
      CommittedFileRoutesAll(service.env, lib, before, first, snapshot, f);
    }
  }

  lemma CommittedFileRoutesAll(env: Env, lib: Library, w: World, first: string, snapshot: Snapshot, f: Faults)
    requires IsReal(env, lib) && LawfulAddresses(lib) && LawfulYaml(lib)
    requires PreparedBy(env, w, snapshot, f) && Committed(f) && Strip(lib, w.config) == Strip(lib, first)
    requires Distinguishes(lib, "flowcanvas", TargetNames(CanvasLines(lib, snapshot)))
    ensures RoutesLikeCanvas(lib, snapshot, FinalConfig(JobFor(env, w, snapshot, f), f), first)
  {
    var text := FinalConfig(JobFor(env, w, snapshot, f), f);
    PreparedOverMapping(env, lib, w, first, snapshot, f);
    forall user: Routing.UserSemantics, pkt | Routing.MatchedSourcesRepresentable(lib, snapshot, pkt)
      ensures RoutedLikeCanvas(lib, snapshot, user, text, first, pkt)
    {
      CommittedFileRoutes(env, lib, user, w, first, snapshot, f, pkt);
      PacketRouted(lib, snapshot, user, text, first, pkt);
    }
  }

  lemma PreparedOverMapping(env: Env, lib: Library, w: World, first: string, snapshot: Snapshot, f: Faults)
    requires IsReal(env, lib) && PreparedBy(env, w, snapshot, f) && Strip(lib, w.config) == Strip(lib, first)
    ensures lib.parseYaml(first).Some? && lib.parseYaml(first).value.Mapping?
  {
    var p := env.compile(snapshot).value;
    assert env.merge(w.config, p) == MergeFor(lib, w.config, p);
  }

  lemma ServiceKeepsStripped(service: Service, lib: Library)
    requires service.Valid() && IsReal(service.env, lib) && LawfulAddresses(lib) && LawfulYaml(lib)
    requires Initial(service.env, service.start)
    ensures Strip(lib, service.config) == Strip(lib, service.start.world.config)
  {
    ServiceIsSafe(service, lib, |service.actions|);
    assert service.actions[..|service.actions|] == service.actions;
    SameStripSameUser(lib, service.start.world.config, service.config);
  }

  lemma CommittedFileRoutes(env: Env, lib: Library, user: Routing.UserSemantics, w: World, first: string, snapshot: Snapshot, f: Faults,
                            pkt: Routing.Packet)
    requires IsReal(env, lib) && LawfulAddresses(lib) && LawfulYaml(lib)
    requires PreparedBy(env, w, snapshot, f) && Committed(f) && Strip(lib, w.config) == Strip(lib, first)
    requires Distinguishes(lib, "flowcanvas", TargetNames(CanvasLines(lib, snapshot)))
    requires Routing.MatchedSourcesRepresentable(lib, snapshot, pkt)
    ensures RoutingCorrect.DecidedByCanvas(lib, snapshot, pkt,
      RoutingCorrect.RouteText(lib, user, FinalConfig(JobFor(env, w, snapshot, f), f), pkt),
      RoutingCorrect.RouteUserText(lib, user, first, pkt))
  {
    CandidateRoutesLikeCanvas(env, lib, user, w, snapshot, f, pkt);
    StrippedDecidesFallback(lib, user, w.config, first, pkt);
  }

  // Whatever state a process ends or crashes in, the next one may start from its files.
  lemma RestartIsInitial(env: Env, lib: Library, s: State, actions: seq<Action>)
    requires IsReal(env, lib) && LawfulAddresses(lib) && LawfulYaml(lib)
    requires Initial(env, s) && Run(env, s, actions).Some?
    ensures Initial(env, State(Run(env, s, actions).value.world.(calls := []), Idle))
  {
    EveryRunIsSafe(env, lib, s, actions);
  }
}
