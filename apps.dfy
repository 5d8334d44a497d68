/**
 * The composition layer of starlette-apps (apps.py): per-feature `App`
 * descriptors, and the `Project` that imports the apps named by its `APPS`
 * setting, registers them by name, classifies the run mode and assembles
 * the keyword arguments of one Starlette application from them.
 *
 * Routes, middleware and startup hooks are opaque values (type parameters
 * R, M and H); a module import is a lookup in a map from dotted path to app.
 */
module Apps {
  import opened Wrappers
  import opened Text
  import opened Dicts

  /** What the composition layer raises. */
  datatype Error =
    | ImportFailed(path: string)           // `importlib.import_module(path).app` does not resolve
    | MissingAttribute(attribute: string)  // AttributeError: an attribute the app does not define
    | UnpackMismatch(pieces: nat)          // ValueError: `a, b = s.split(':')` met `pieces` pieces

  /** `starlette.routing.Mount(prefix, name=name, routes=routes)`. */
  datatype Mount<R> = Mount(prefix: string, name: string, routes: seq<R>)

  /** An entry of the application's route list: a route the caller passed, or an app's mount. */
  datatype RouteEntry<R> = Route(route: R) | Mounted(mount: Mount<R>)

  /** An entry of the `on_startup` list: a hook the caller passed, or the project's own `startup`. */
  datatype Hook<H> = Supplied(hook: H) | ProjectStartup

  /** The run modes `'dev'`, `'test'` and `'production'`. */
  datatype RunMode = Dev | Test | Production

  /**
   * The class-level attributes of a concrete `App` subclass that the
   * constructor and `get_mount` look up through the instance; `None` means
   * the class does not define the attribute.  `controllers` and `views` are
   * recorded by their truthiness.
   */
  datatype AppClass<R, M> = AppClass(
    typeName: string,
    name: Option<string>,
    routes: Option<seq<R>>,
    middlewares: Option<seq<M>>,
    pattern: Option<string>,
    controllers: Option<bool>,
    views: Option<bool>)

  /**
   * `given or getattr(self, attr, fallback)`: a truthy (non-empty) argument,
   * else the class attribute whatever its value, else the fallback.  An
   * argument of `None` and an empty one are both represented by `[]`.
   */
  function Layered<T>(given: seq<T>, inherited: Option<seq<T>>, fallback: seq<T>): seq<T> {
    if given != [] then given else if inherited.Some? then inherited.value else fallback
  }

  /** `path.split('.')[-1]`: what follows the last dot of a dotted path. */
  function LastSegment(path: string): (s: string)
    ensures '.' !in s
  {
    var pieces := Split(path, '.');
    SplitPiecesFree(path, '.');
    pieces[|pieces| - 1]
  }

  /** The last segment of `prefix.s` is `s`, whatever the prefix. */
  lemma LastSegmentAfterDot(prefix: string, s: string)
    requires '.' !in s
    ensures LastSegment(prefix + "." + s) == s
  {
    SplitAround(prefix, s, '.');
    SplitWithout(s, '.');
  }

  /** A path without a dot is its own last segment (`'test_apps'` names the app `test_apps`). */
  lemma LastSegmentUndotted(s: string)
    requires '.' !in s
    ensures LastSegment(s) == s
  {
    SplitWithout(s, '.');
  }

  class App<R, M> {
    var name: string
    var routes: seq<R>
    var middlewares: seq<M>
    const pattern: Option<string>
    const controllers: Option<bool>
    const views: Option<bool>
    /** The dotted path the project imported this app from (`app.module`). */
    var moduleName: Option<string>
    /** The back-reference `app.project`, set when a project registers the app. */
    var project: Project?<R, M>
    /** How many times the `setup()` hook has run (the base hook does nothing else). */
    var setupCount: nat

    /** `App.__init__(name, routes, middlewares)` on an instance of class `cls`. */
    constructor (cls: AppClass<R, M>, name: string, routes: seq<R>, middlewares: seq<M>)
      ensures this.name == Layered(name, cls.name, cls.typeName)
      ensures this.routes == Layered(routes, cls.routes, [])
      ensures this.middlewares == Layered(middlewares, cls.middlewares, [])
      ensures pattern == cls.pattern && controllers == cls.controllers && views == cls.views
      ensures moduleName == None && project == null && setupCount == 0
    {
      this.name := Layered(name, cls.name, cls.typeName);
      this.routes := Layered(routes, cls.routes, []);
      this.middlewares := Layered(middlewares, cls.middlewares, []);
      pattern, controllers, views := cls.pattern, cls.controllers, cls.views;
      moduleName, project, setupCount := None, null, 0;
    }

    /** `get_middlewares(*extra)`: a new list, the app's own middleware first, then `extra`. */
    function GetMiddlewares(extra: seq<M>): seq<M>
      reads this
    {
      middlewares + extra
    }

    /** The app's middleware come first, each at its own index, and the extras follow. */
    lemma MiddlewaresFirst(extra: seq<M>)
      ensures |GetMiddlewares(extra)| == |middlewares| + |extra|
      ensures forall i :: 0 <= i < |middlewares| ==> GetMiddlewares(extra)[i] == middlewares[i]
      ensures forall i :: 0 <= i < |extra| ==> GetMiddlewares(extra)[|middlewares| + i] == extra[i]
    {
    }

    /** `get_routes(*extra)`: a new list, `extra` first, then the app's own routes. */
    function GetRoutes(extra: seq<R>): seq<R>
      reads this
    {
      extra + routes
    }

    /** The extras come first, each at its own index, and the app's routes follow. */
    lemma RoutesAfterExtras(extra: seq<R>)
      ensures |GetRoutes(extra)| == |extra| + |routes|
      ensures forall i :: 0 <= i < |extra| ==> GetRoutes(extra)[i] == extra[i]
      ensures forall i :: 0 <= i < |routes| ==> GetRoutes(extra)[|extra| + i] == routes[i]
    {
    }

    /** `get_pattern()`: the `pattern` attribute, else the name in lower case. */
    function GetPattern(): (p: string)
      reads this
      ensures pattern.Some? ==> p == pattern.value
      ensures pattern.None? ==> |p| == |name|
    {
      if pattern.Some? then pattern.value else Lower(name)
    }

    /** Without a `pattern` attribute, the pattern is the name with every capital lowered. */
    lemma PatternFromName()
      requires pattern.None?
      ensures forall i :: 0 <= i < |GetPattern()| ==>
                GetPattern()[i] == LowerChar(name[i]) && !IsUpper(GetPattern()[i])
    {
      LowerAt(name);
    }

    /**
     * `get_mount()`: the mount of the app's routes under `'/' + pattern`,
     * or no mount.  When the app has no routes the expression
     * `self.routes or self.controllers or self.views` reads `controllers`,
     * then `views`, and raises if the attribute it reads is not there.
     */
    function GetMount(): Result<Option<Mount<R>>, Error>
      reads this
    {
      var mount := Mount("/" + GetPattern(), name, GetRoutes([]));
      if routes != [] then Ok(Some(mount))
      else if controllers.None? then Err(MissingAttribute("controllers"))
      else if controllers.value then Ok(Some(mount))
      else if views.None? then Err(MissingAttribute("views"))
      else if views.value then Ok(Some(mount))
      else Ok(None)
    }

    /**
     * An app with routes always mounts; an app without routes mounts unless
     * both flags are false, and raises when the flag it reads is missing.
     * A mount is always the app's routes under its pattern and its name.
     */
    lemma MountCases()
      ensures var r := GetMount();
              && (r.Ok? && r.value.Some? ==> r.value.value == Mount("/" + GetPattern(), name, routes))
              && (routes != [] ==> r.Ok? && r.value.Some?)
              && (r == Ok(None) <==> routes == [] && controllers == Some(false) && views == Some(false))
              && (r.Err? <==> routes == [] && (controllers.None? || (controllers == Some(false) && views.None?)))
              && (r.Err? ==> r.error == MissingAttribute(if controllers.None? then "controllers" else "views"))
    {
      assert GetRoutes([]) == routes;
    }

    /** `setup()`: the hook a project runs once for each registration of the app. */
    method Setup()
      modifies this`setupCount
      ensures setupCount == old(setupCount) + 1
    {
      setupCount := setupCount + 1;
    }
  }

  /** The `get_middlewares()` list of each of `apps`, in order. */
  function MiddlewareLists<R, M>(apps: seq<App<R, M>>): (ls: seq<seq<M>>)
    reads apps
    ensures |ls| == |apps|
    decreases |apps|
  {
    if apps == [] then [] else MiddlewareLists(apps[..|apps| - 1]) + [apps[|apps| - 1].GetMiddlewares([])]
  }

  /** The lists one after another. */
  function Concat<T>(ls: seq<seq<T>>): seq<T>
    decreases |ls|
  {
    if ls == [] then [] else Concat(ls[..|ls| - 1]) + ls[|ls| - 1]
  }

  /** The middleware of `apps`, each app's `get_middlewares()` in turn. */
  function Middlewares<R, M>(apps: seq<App<R, M>>): seq<M>
    reads apps
  {
    Concat(MiddlewareLists(apps))
  }

  /** Each list is the `get_middlewares()` of the app at the same index. */
  lemma {:induction false} MiddlewareListsAt<R, M>(apps: seq<App<R, M>>)
    ensures forall i :: 0 <= i < |apps| ==> MiddlewareLists(apps)[i] == apps[i].GetMiddlewares([])
    decreases |apps|
  {
    if apps != [] {
      var n := |apps| - 1;
      MiddlewareListsAt(apps[..n]);
      assert forall i :: 0 <= i < n ==> apps[..n][i] == apps[i];
    }
  }

  /** One more list is appended at the end. */
  lemma ConcatStep<T>(ls: seq<seq<T>>, i: nat)
    requires i < |ls|
    ensures Concat(ls[..i + 1]) == Concat(ls[..i]) + ls[i]
  {
    assert ls[..i + 1][..i] == ls[..i];
  }

  /** Concatenation distributes over appending the lists. */
  lemma {:induction false} ConcatAppend<T>(xs: seq<seq<T>>, ys: seq<seq<T>>)
    ensures Concat(xs + ys) == Concat(xs) + Concat(ys)
    decreases |ys|
  {
    if ys == [] {
      assert xs + ys == xs;
    } else {
      var n := |ys| - 1;
      ConcatAppend(xs, ys[..n]);
      assert (xs + ys)[..|xs + ys| - 1] == xs + ys[..n];
      assert (xs + ys)[|xs + ys| - 1] == ys[n];
    }
  }

  /** An element is in the concatenation exactly when it is in one of the lists. */
  lemma {:induction false} ConcatMember<T>(ls: seq<seq<T>>, x: T)
    ensures x in Concat(ls) <==> exists i :: 0 <= i < |ls| && x in ls[i]
    decreases |ls|
  {
    if ls != [] {
      var n := |ls| - 1;
      ConcatMember(ls[..n], x);
      assert forall i :: 0 <= i < n ==> ls[..n][i] == ls[i];
    }
  }

  /** Aggregating middleware distributes over concatenation of the app lists. */
  lemma MiddlewaresAppend<R, M>(xs: seq<App<R, M>>, ys: seq<App<R, M>>)
    ensures Middlewares(xs + ys) == Middlewares(xs) + Middlewares(ys)
  {
    MiddlewareListsAt(xs);
    MiddlewareListsAt(ys);
    MiddlewareListsAt(xs + ys);
    assert MiddlewareLists(xs + ys) == MiddlewareLists(xs) + MiddlewareLists(ys);
    ConcatAppend(MiddlewareLists(xs), MiddlewareLists(ys));
  }

  /** A middleware is in the aggregate exactly when some app declares it. */
  lemma MiddlewaresMember<R, M>(apps: seq<App<R, M>>, m: M)
    ensures m in Middlewares(apps) <==> exists i :: 0 <= i < |apps| && m in apps[i].middlewares
  {
    MiddlewareListsAt(apps);
    ConcatMember(MiddlewareLists(apps), m);
    assert forall i :: 0 <= i < |apps| ==> apps[i].GetMiddlewares([]) == apps[i].middlewares;
  }

  /** One app's share of `routes()`, from its `get_mount()`: its mount, nothing, or the error raised. */
  function Share<R>(result: Result<Option<Mount<R>>, Error>): Result<seq<Mount<R>>, Error> {
    match result
    case Err(e) => Err(e)
    case Ok(None) => Ok([])
    case Ok(Some(m)) => Ok([m])
  }

  /** Two collections one after the other: the first error, else both lists of mounts. */
  function Combine<T>(a: Result<seq<T>, Error>, b: Result<seq<T>, Error>): Result<seq<T>, Error> {
    if a.Err? then a else if b.Err? then b else Ok(a.value + b.value)
  }

  /**
   * The loop of `Project.routes()` over the `get_mount()` results: each
   * mount in turn, skipping `None`; the first error aborts.
   */
  function Collect<R>(results: seq<Result<Option<Mount<R>>, Error>>): (r: Result<seq<Mount<R>>, Error>)
    ensures r.Ok? ==> |r.value| <= |results|
    decreases |results|
  {
    if results == [] then Ok([])
    else Combine(Collect(results[..|results| - 1]), Share(results[|results| - 1]))
  }

  /** The `get_mount()` result of each of `apps`, in order. */
  function MountResults<R, M>(apps: seq<App<R, M>>): (rs: seq<Result<Option<Mount<R>>, Error>>)
    reads apps
    ensures |rs| == |apps|
    decreases |apps|
  {
    if apps == [] then [] else MountResults(apps[..|apps| - 1]) + [apps[|apps| - 1].GetMount()]
  }

  /** `routes()` over `apps`. */
  function Mounts<R, M>(apps: seq<App<R, M>>): Result<seq<Mount<R>>, Error>
    reads apps
  {
    Collect(MountResults(apps))
  }

  /** Each result is the `get_mount()` of the app at the same index. */
  lemma {:induction false} MountResultsAt<R, M>(apps: seq<App<R, M>>)
    ensures forall i :: 0 <= i < |apps| ==> MountResults(apps)[i] == apps[i].GetMount()
    decreases |apps|
  {
    if apps != [] {
      var n := |apps| - 1;
      MountResultsAt(apps[..n]);
      assert forall i :: 0 <= i < n ==> apps[..n][i] == apps[i];
    }
  }

  /** One more result adds its share at the end. */
  lemma CollectStep<R>(results: seq<Result<Option<Mount<R>>, Error>>, i: nat)
    requires i < |results|
    ensures Collect(results[..i + 1]) == Combine(Collect(results[..i]), Share(results[i]))
  {
    assert results[..i + 1][..i] == results[..i];
  }

  /** Combining is associative. */
  lemma CombineAssociative<T>(a: Result<seq<T>, Error>, b: Result<seq<T>, Error>, c: Result<seq<T>, Error>)
    ensures Combine(Combine(a, b), c) == Combine(a, Combine(b, c))
  {
    if a.Ok? && b.Ok? && c.Ok? {
      assert a.value + b.value + c.value == a.value + (b.value + c.value);
    }
  }

  /** Collecting distributes over concatenation, and the earlier error wins. */
  lemma {:induction false} CollectAppend<R>(xs: seq<Result<Option<Mount<R>>, Error>>,
                                            ys: seq<Result<Option<Mount<R>>, Error>>)
    ensures Collect(xs + ys) == Combine(Collect(xs), Collect(ys))
    decreases |ys|
  {
    if ys == [] {
      assert xs + ys == xs;
      if Collect(xs).Ok? {
        assert Collect(xs).value + [] == Collect(xs).value;
      }
    } else {
      var n := |ys| - 1;
      var zs := xs + ys;
      assert zs[..|zs| - 1] == xs + ys[..n];
      assert zs[|zs| - 1] == ys[n];
      calc {
        Collect(zs);
        Combine(Collect(xs + ys[..n]), Share(ys[n]));
        { CollectAppend(xs, ys[..n]); }
        Combine(Combine(Collect(xs), Collect(ys[..n])), Share(ys[n]));
        { CombineAssociative(Collect(xs), Collect(ys[..n]), Share(ys[n])); }
        Combine(Collect(xs), Combine(Collect(ys[..n]), Share(ys[n])));
        Combine(Collect(xs), Collect(ys));
      }
    }
  }

  /** The first error decides the outcome of the whole collection. */
  lemma {:induction false} CollectFirstError<R>(results: seq<Result<Option<Mount<R>>, Error>>, i: nat)
    requires i < |results| && Collect(results[..i]).Ok? && results[i].Err?
    ensures Collect(results) == Err(results[i].error)
    decreases |results|
  {
    var n := |results| - 1;
    if i == n {
      assert results[..n] == results[..i];
    } else {
      assert results[..n][..i] == results[..i];
      CollectFirstError(results[..n], i);
    }
  }

  /** An app that mounts nothing is skipped: the mounts around it keep their order. */
  lemma CollectSkipsNone<R>(xs: seq<Result<Option<Mount<R>>, Error>>, ys: seq<Result<Option<Mount<R>>, Error>>)
    ensures Collect(xs + [Ok(None)] + ys) == Collect(xs + ys)
  {
    var none: seq<Result<Option<Mount<R>>, Error>> := [Ok(None)];
    assert none[..0] == [];
    assert Collect(none) == Ok([]);
    CollectAppend(xs, none);
    if Collect(xs).Ok? {
      assert Collect(xs).value + [] == Collect(xs).value;
    }
    CollectAppend(xs + none, ys);
    CollectAppend(xs, ys);
  }

  /** A collection that succeeds holds exactly the mounts some result carries. */
  lemma {:induction false} CollectMember<R>(results: seq<Result<Option<Mount<R>>, Error>>, m: Mount<R>)
    requires Collect(results).Ok?
    ensures m in Collect(results).value <==> exists i :: 0 <= i < |results| && results[i] == Ok(Some(m))
    decreases |results|
  {
    if results != [] {
      var n := |results| - 1;
      assert Collect(results[..n]).Ok?;
      CollectMember(results[..n], m);
      assert forall i :: 0 <= i < n ==> results[..n][i] == results[i];
    }
  }

  /** Collecting succeeds exactly when no result is an error. */
  lemma {:induction false} CollectOk<R>(results: seq<Result<Option<Mount<R>>, Error>>)
    ensures Collect(results).Ok? <==> forall i :: 0 <= i < |results| ==> results[i].Ok?
    decreases |results|
  {
    if results != [] {
      var n := |results| - 1;
      CollectOk(results[..n]);
      assert forall i :: 0 <= i < n ==> results[..n][i] == results[i];
    }
  }

  /** Results that are all mounts are collected one each, in order. */
  lemma {:induction false} CollectAllMounted<R>(results: seq<Result<Option<Mount<R>>, Error>>)
    requires forall i :: 0 <= i < |results| ==> results[i].Ok? && results[i].value.Some?
    ensures Collect(results).Ok? && |Collect(results).value| == |results|
    ensures forall i :: 0 <= i < |results| ==> Collect(results).value[i] == results[i].value.value
    decreases |results|
  {
    if results != [] {
      var n := |results| - 1;
      CollectAllMounted(results[..n]);
      assert forall i :: 0 <= i < n ==> results[..n][i] == results[i];
    }
  }

  /** `routes()` succeeds exactly when no app's `get_mount()` raises. */
  lemma MountsOk<R, M>(apps: seq<App<R, M>>)
    ensures Mounts(apps).Ok? <==> forall i :: 0 <= i < |apps| ==> apps[i].GetMount().Ok?
  {
    MountResultsAt(apps);
    CollectOk(MountResults(apps));
  }

  /** When `routes()` succeeds, it holds exactly the mounts that some registered app's `get_mount()` returns. */
  lemma MountsMember<R, M>(apps: seq<App<R, M>>, m: Mount<R>)
    requires Mounts(apps).Ok?
    ensures m in Mounts(apps).value <==> exists i :: 0 <= i < |apps| && apps[i].GetMount() == Ok(Some(m))
  {
    MountResultsAt(apps);
    CollectMember(MountResults(apps), m);
  }

  /** Apps that all have routes contribute one mount each, in order, under their own patterns. */
  lemma MountsAllRouted<R, M>(apps: seq<App<R, M>>)
    requires forall i :: 0 <= i < |apps| ==> apps[i].routes != []
    ensures Mounts(apps).Ok? && |Mounts(apps).value| == |apps|
    ensures forall i :: 0 <= i < |apps| ==>
              Mounts(apps).value[i] == Mount("/" + apps[i].GetPattern(), apps[i].name, apps[i].routes)
  {
    MountResultsAt(apps);
    forall i | 0 <= i < |apps|
      ensures MountResults(apps)[i] == Ok(Some(Mount("/" + apps[i].GetPattern(), apps[i].name, apps[i].routes)))
    {
      assert apps[i].GetRoutes([]) == apps[i].routes;
    }
    CollectAllMounted(MountResults(apps));
  }

  /** `project_setup`'s `a, b = s.split(':')`: exactly one colon, else ValueError. */
  function SplitIdentity(s: string): (r: Result<(string, string), Error>)
    ensures r.Ok? <==> Occurrences(s, ':') == 1
    ensures r.Ok? ==> s == r.value.0 + ":" + r.value.1 && ':' !in r.value.0 && ':' !in r.value.1
    ensures r.Err? ==> r.error == UnpackMismatch(Occurrences(s, ':') + 1)
  {
    var pieces := Split(s, ':');
    SplitCount(s, ':');
    JoinSplit(s, ':');
    SplitPiecesFree(s, ':');
    if |pieces| == 2 then
      assert Join(pieces, ':') == pieces[0] + ":" + pieces[1];
      Ok((pieces[0], pieces[1]))
    else Err(UnpackMismatch(|pieces|))
  }

  /** An identity written as `module:variable` splits back into its two parts. */
  lemma IdentityRoundTrip(moduleName: string, variable: string)
    requires ':' !in moduleName && ':' !in variable
    ensures SplitIdentity(moduleName + ":" + variable) == Ok((moduleName, variable))
  {
    SplitAround(moduleName, variable, ':');
    SplitWithout(moduleName, ':');
    SplitWithout(variable, ':');
  }

  /** `Config('.env', settings)` after merging: its string values, and `APPS` already split. */
  datatype Config = Config(values: map<string, string>, apps: seq<string>)

  /** `config('PROJECT', default=None)`, with `""` for both a missing and an empty value. */
  function ConfiguredProject(c: Config): string {
    if "PROJECT" in c.values then c.values["PROJECT"] else ""
  }

  /**
   * What the call-site fallback of `project_setup` derives from the
   * outermost stack frame: the module's file name without `.py`, and the
   * variable being assigned.
   */
  datatype CallSite = CallSite(moduleName: string, variable: string)

  /** `mode`: `'--reload'` among the arguments first, then `'pytest'` among the loaded modules. */
  function Classify(argv: seq<string>, loaded: set<string>): (m: RunMode)
    ensures m == Dev <==> "--reload" in argv
    ensures m == Test <==> "--reload" !in argv && "pytest" in loaded
    ensures m == Production <==> "--reload" !in argv && "pytest" !in loaded
  {
    if "--reload" in argv then Dev else if "pytest" in loaded then Test else Production
  }

  /** The default of `debug`: `mode in ('test', 'dev')`. */
  function DebugDefault(m: RunMode): bool {
    m == Test || m == Dev
  }

  /** One pass of the `apps_setup` loop: the app of `path` stored under `name`. */
  datatype Registration<R, M> = Registration(name: string, path: string, app: App<R, M>)

  /** `app.name` after `if not app.name: app.name = path.split('.')[-1]`. */
  function RegisteredName(current: string, path: string): string {
    if current == "" then LastSegment(path) else current
  }

  /** The current name of each app in `apps`. */
  function NamesOf<R, M>(apps: set<App<R, M>>): map<App<R, M>, string>
    reads apps
  {
    map a | a in apps :: a.name
  }

  /**
   * The registrations `apps_setup` makes for `paths`, given the apps'
   * names beforehand: one per path, in order, up to the first path that
   * does not resolve.  A name given to an app carries over to its later
   * registrations.
   */
  ghost function Registrations<R, M>(paths: seq<string>, modules: map<string, App<R, M>>,
                                     names: map<App<R, M>, string>): (regs: seq<Registration<R, M>>)
    ensures |regs| <= |paths|
    ensures |regs| < |paths| ==> paths[|regs|] !in modules
    decreases |paths|
  {
    if paths == [] then []
    else
      var n := |paths| - 1;
      var prev := Registrations(paths[..n], modules, names);
      if |prev| < n || paths[n] !in modules then prev
      else
        var app := modules[paths[n]];
        prev + [Registration(RegisteredName(NameAfter(prev, app, NameIn(names, app)), paths[n]), paths[n], app)]
  }

  /** Each registration is of the app its path resolves to. */
  lemma {:induction false} RegistrationsResolve<R, M>(paths: seq<string>, modules: map<string, App<R, M>>,
                                                      names: map<App<R, M>, string>)
    ensures var regs := Registrations(paths, modules, names);
            forall i :: 0 <= i < |regs| ==>
              paths[i] in modules && regs[i].path == paths[i] && regs[i].app == modules[paths[i]]
    decreases |paths|
  {
    if paths != [] {
      var n := |paths| - 1;
      RegistrationsResolve(paths[..n], modules, names);
    }
  }

  /** The name `names` records for `a`; empty for an app it does not record. */
  function NameIn<R, M>(names: map<App<R, M>, string>, a: App<R, M>): string {
    if a in names then names[a] else ""
  }

  /** The name of `a` after the registrations `regs`, given that it was `name` before them. */
  function NameAfter<R, M>(regs: seq<Registration<R, M>>, a: App<R, M>, name: string): string {
    match LastFor(regs, a)
    case None => name
    case Some(g) => g.name
  }

  /** A resolving path after `i` successful ones adds its registration at the end. */
  lemma RegistrationsNext<R, M>(paths: seq<string>, modules: map<string, App<R, M>>,
                                names: map<App<R, M>, string>, i: nat)
    requires i < |paths| && paths[i] in modules
    requires |Registrations(paths[..i], modules, names)| == i
    ensures var done := Registrations(paths[..i], modules, names);
            var app := modules[paths[i]];
            Registrations(paths[..i + 1], modules, names)
              == done + [Registration(RegisteredName(NameAfter(done, app, NameIn(names, app)), paths[i]), paths[i], app)]
  {
    assert paths[..i + 1][..i] == paths[..i];
  }

  /** A path that does not resolve after `i` successful ones ends the registrations. */
  lemma RegistrationsEnd<R, M>(paths: seq<string>, modules: map<string, App<R, M>>,
                               names: map<App<R, M>, string>, i: nat)
    requires i < |paths| && paths[i] !in modules
    requires |Registrations(paths[..i], modules, names)| == i
    ensures Registrations(paths, modules, names) == Registrations(paths[..i], modules, names)
  {
    assert paths[..i + 1][..i] == paths[..i];
    RegistrationsStop(paths, modules, names, i + 1);
  }

  /** Once a path fails to resolve, the later paths add no registration. */
  lemma {:induction false} RegistrationsStop<R, M>(paths: seq<string>, modules: map<string, App<R, M>>,
                                                   names: map<App<R, M>, string>, k: nat)
    requires k <= |paths| && |Registrations(paths[..k], modules, names)| < k
    ensures Registrations(paths, modules, names) == Registrations(paths[..k], modules, names)
    decreases |paths|
  {
    if k < |paths| {
      var n := |paths| - 1;
      assert paths[..n][..k] == paths[..k];
      RegistrationsStop(paths[..n], modules, names, k);
    } else {
      assert paths[..k] == paths;
    }
  }

  /** The (name, app) assignments the registrations make to the `apps` dict. */
  function Pairs<R, M>(regs: seq<Registration<R, M>>): seq<(string, App<R, M>)> {
    seq(|regs|, i requires 0 <= i < |regs| => (regs[i].name, regs[i].app))
  }

  /** One more registration is one more assignment. */
  lemma PairsSnoc<R, M>(regs: seq<Registration<R, M>>, g: Registration<R, M>)
    ensures Pairs(regs + [g]) == Pairs(regs) + [(g.name, g.app)]
  {
  }

  /** The last registration of `a`, if any. */
  function LastFor<R, M>(regs: seq<Registration<R, M>>, a: App<R, M>): (g: Option<Registration<R, M>>)
    ensures g.Some? ==> g.value.app == a
    decreases |regs|
  {
    if regs == [] then None
    else if regs[|regs| - 1].app == a then Some(regs[|regs| - 1])
    else LastFor(regs[..|regs| - 1], a)
  }

  /** An app has a last registration exactly when it is registered at all. */
  lemma {:induction false} LastForMissing<R, M>(regs: seq<Registration<R, M>>, a: App<R, M>)
    ensures LastFor(regs, a).None? <==> forall i :: 0 <= i < |regs| ==> regs[i].app != a
    decreases |regs|
  {
    if regs != [] {
      var n := |regs| - 1;
      LastForMissing(regs[..n], a);
      assert forall i :: 0 <= i < n ==> regs[..n][i] == regs[i];
    }
  }

  /** How many times `a` is registered. */
  function TimesRegistered<R, M>(regs: seq<Registration<R, M>>, a: App<R, M>): nat
    decreases |regs|
  {
    if regs == [] then 0
    else TimesRegistered(regs[..|regs| - 1], a) + (if regs[|regs| - 1].app == a then 1 else 0)
  }

  /** Extending the registrations by `g` changes only what is known of `g.app`. */
  lemma SnocRegistration<R, M>(regs: seq<Registration<R, M>>, g: Registration<R, M>, a: App<R, M>)
    ensures LastFor(regs + [g], a) == if g.app == a then Some(g) else LastFor(regs, a)
    ensures TimesRegistered(regs + [g], a) == TimesRegistered(regs, a) + if g.app == a then 1 else 0
  {
    assert (regs + [g])[..|regs|] == regs;
  }

  /** The fields of an app that `apps_setup` assigns. */
  datatype AppState<R, M> = AppState(name: string, moduleName: Option<string>,
                                     project: Project?<R, M>, setupCount: nat)

  function StateOf<R, M>(a: App<R, M>): AppState<R, M>
    reads a`name, a`moduleName, a`project, a`setupCount
  {
    AppState(a.name, a.moduleName, a.project, a.setupCount)
  }

  /**
   * App `a`, in state `before` until project `p` made the registrations
   * `regs`: named and bound by its last registration if it has one, else
   * untouched, and set up once per registration.
   */
  ghost predicate Bound<R, M>(a: App<R, M>, regs: seq<Registration<R, M>>, before: AppState<R, M>,
                              p: Project<R, M>)
    reads a`name, a`moduleName, a`project, a`setupCount
  {
    BoundState(StateOf(a), a, regs, before, p)
  }

  /** The assigned fields of each app of `objs`. */
  function StatesOf<R, M>(objs: set<App<R, M>>): map<App<R, M>, AppState<R, M>>
    reads objs
  {
    map a | a in objs :: StateOf(a)
  }

  /** Every app of `objs` is `Bound` after `regs`, from its state in `before`. */
  ghost predicate AllBound<R, M>(objs: set<App<R, M>>, regs: seq<Registration<R, M>>,
                                 before: map<App<R, M>, AppState<R, M>>, p: Project<R, M>)
    reads objs
  {
    AllBoundStates(StatesOf(objs), regs, before, p)
  }

  /** `AllBound`, for the apps whose assigned fields are `states`. */
  ghost predicate AllBoundStates<R, M>(states: map<App<R, M>, AppState<R, M>>, regs: seq<Registration<R, M>>,
                                       before: map<App<R, M>, AppState<R, M>>, p: Project<R, M>)
  {
    forall a :: a in states ==> a in before && BoundState(states[a], a, regs, before[a], p)
  }

  /** Before any registration, every app of `objs` is bound as it stands. */
  lemma AllBoundInitially<R, M>(objs: set<App<R, M>>, before: map<App<R, M>, AppState<R, M>>, p: Project<R, M>)
    requires forall a :: a in objs ==> a in before && StateOf(a) == before[a]
    ensures AllBound(objs, [], before, p)
  {
  }

  /**
   * A registration `g` that binds its app, from `states` to `after`, and
   * leaves every other app as it was keeps all apps bound.
   */
  lemma AllBoundStep<R, M>(states: map<App<R, M>, AppState<R, M>>, after: map<App<R, M>, AppState<R, M>>,
                           regs: seq<Registration<R, M>>, g: Registration<R, M>,
                           before: map<App<R, M>, AppState<R, M>>, p: Project<R, M>)
    requires g.app in states && after.Keys == states.Keys && AllBoundStates(states, regs, before, p)
    requires after[g.app] == AppState(g.name, Some(g.path), p, states[g.app].setupCount + 1)
    requires forall a :: a in states && a != g.app ==> after[a] == states[a]
    ensures AllBoundStates(after, regs + [g], before, p)
  {
    forall a | a in after
      ensures a in before && BoundState(after[a], a, regs + [g], before[a], p)
    {
      if a == g.app {
        BoundHere(states[a], a, regs, g, before[a], p);
      } else {
        BoundElsewhere(states[a], a, regs, g, before[a], p);
      }
    }
  }

  /** `Bound`, for the app `a` whose assigned fields are `now`. */
  ghost predicate BoundState<R, M>(now: AppState<R, M>, a: App<R, M>, regs: seq<Registration<R, M>>,
                                   before: AppState<R, M>, p: Project<R, M>)
  {
    && now.setupCount == before.setupCount + TimesRegistered(regs, a)
    && match LastFor(regs, a)
       case None => now.name == before.name && now.moduleName == before.moduleName && now.project == before.project
       case Some(g) => now.name == g.name && now.moduleName == Some(g.path) && now.project == p
  }

  /** A registration of another app leaves `a` bound as it was. */
  lemma BoundElsewhere<R, M>(now: AppState<R, M>, a: App<R, M>, regs: seq<Registration<R, M>>,
                             g: Registration<R, M>, before: AppState<R, M>, p: Project<R, M>)
    requires g.app != a && BoundState(now, a, regs, before, p)
    ensures BoundState(now, a, regs + [g], before, p)
  {
    SnocRegistration(regs, g, a);
  }

  /** A registration of `a` binds it to the registration and counts one more setup. */
  lemma BoundHere<R, M>(now: AppState<R, M>, a: App<R, M>, regs: seq<Registration<R, M>>,
                        g: Registration<R, M>, before: AppState<R, M>, p: Project<R, M>)
    requires g.app == a && BoundState(now, a, regs, before, p)
    ensures BoundState(AppState(g.name, Some(g.path), p, now.setupCount + 1), a, regs + [g], before, p)
  {
    SnocRegistration(regs, g, a);
  }

  /** The last registration of an app lies at or after any of its registrations. */
  lemma {:induction false} LastForAfter<R, M>(regs: seq<Registration<R, M>>, j: nat) returns (i: nat)
    requires j < |regs|
    ensures j <= i < |regs| && LastFor(regs, regs[j].app) == Some(regs[i])
    decreases |regs|
  {
    var n := |regs| - 1;
    if regs[n].app == regs[j].app {
      i := n;
    } else {
      i := LastForAfter(regs[..n], j);
    }
  }

  /**
   * When every path has a non-empty last segment, every registration has
   * a non-empty name and all registrations of one app use the same name.
   */
  lemma {:induction false} NamesStable<R, M>(paths: seq<string>, modules: map<string, App<R, M>>,
                                             names: map<App<R, M>, string>)
    requires forall p :: p in paths ==> LastSegment(p) != ""
    ensures forall i :: 0 <= i < |Registrations(paths, modules, names)| ==>
              Registrations(paths, modules, names)[i].name != ""
    ensures forall i, j :: 0 <= i < j < |Registrations(paths, modules, names)| &&
                           Registrations(paths, modules, names)[i].app ==
                           Registrations(paths, modules, names)[j].app ==>
              Registrations(paths, modules, names)[j].name == Registrations(paths, modules, names)[i].name
    decreases |paths|
  {
    if paths != [] {
      var n := |paths| - 1;
      var prev := Registrations(paths[..n], modules, names);
      NamesStable(paths[..n], modules, names);
      var regs := Registrations(paths, modules, names);
      if |regs| > |prev| {
        var app := modules[paths[n]];
        assert regs == prev + [regs[n]];
        assert paths[n] in paths;
        forall i | 0 <= i < n && prev[i].app == app
          ensures regs[n].name == prev[i].name
        {
          var l := LastForAfter(prev, i);
        }
      }
    }
  }

  /** All registrations of one app use the same name. */
  ghost predicate OneNamePerApp<R, M>(regs: seq<Registration<R, M>>) {
    forall i, j :: 0 <= i < j < |regs| && regs[i].app == regs[j].app ==> regs[j].name == regs[i].name
  }

  /**
   * When each app keeps one name, every key of the dict the registrations
   * build maps to a registered app whose last registration used that key.
   */
  lemma KeyedByLastName<R, M>(regs: seq<Registration<R, M>>, k: string) returns (j: nat)
    requires OneNamePerApp(regs)
    requires k in FromPairs(Pairs(regs)).entries
    ensures j < |regs| && regs[j].app == FromPairs(Pairs(regs)).entries[k]
    ensures LastFor(regs, regs[j].app).Some? && LastFor(regs, regs[j].app).value.name == k
  {
    var pairs := Pairs(regs);
    FromPairsDomain(pairs);
    j := LastAssigned(pairs, k);
    FromPairsLastWins(pairs, j);
    var i := LastForAfter(regs, j);
    if i > j {
      assert regs[i].name == regs[j].name;
    }
  }

  /**
   * When every path has a non-empty last segment, each key of the built
   * registry maps to an app whose final name is that key.
   */
  lemma RegisteredUnderOwnName<R, M>(paths: seq<string>, modules: map<string, App<R, M>>,
                                     names: map<App<R, M>, string>, k: string)
    requires forall p :: p in paths ==> LastSegment(p) != ""
    requires k in FromPairs(Pairs(Registrations(paths, modules, names))).entries
    ensures var regs := Registrations(paths, modules, names);
            var a := FromPairs(Pairs(regs)).entries[k];
            a in modules.Values && LastFor(regs, a).Some? && LastFor(regs, a).value.name == k
  {
    var regs := Registrations(paths, modules, names);
    NamesStable(paths, modules, names);
    var j := KeyedByLastName(regs, k);
    RegistrationsResolve(paths, modules, names);
    assert paths[j] in modules && regs[j].app == modules[paths[j]];
  }

  /** `Project._singleton`, the class-level slot of the most recently constructed project. */
  class ProjectSlot<R, M> {
    var singleton: Project?<R, M>

    constructor ()
      ensures singleton == null
    {
      singleton := null;
    }

    /** `Project.current()` on its cached path; `None` where the import-based fallback would run. */
    function Current(): (p: Option<Project<R, M>>)
      reads this
      ensures p.Some? <==> singleton != null
      ensures p.Some? ==> p.value == singleton
    {
      if singleton == null then None else Some(singleton)
    }
  }

  class Project<R, M> {
    var config: Config
    /** `self.project`, the identity `module:variable`. */
    var identity: string
    var projectModule: string
    var projectVariable: string
    /** `self.apps`: app name to app, in registration order. */
    var apps: Dict<App<R, M>>
    /** `self._mode`, absent until `mode` is first read. */
    var cachedMode: Option<RunMode>

    /** The `Config('.env', settings)` step of `Project.__init__`. */
    constructor (settings: Config)
      ensures config == settings && apps == Empty() && cachedMode == None
      ensures identity == "" && projectModule == "" && projectVariable == ""
    {
      config := settings;
      identity, projectModule, projectVariable := "", "", "";
      apps := Empty();
      cachedMode := None;
    }

    /**
     * `project_setup()`: publishes this project in the class slot first,
     * then takes the identity from `PROJECT` (which must hold exactly one
     * colon) or, when that is unset or empty, from the call site.
     */
    method ProjectSetup(slot: ProjectSlot<R, M>, site: CallSite) returns (err: Option<Error>)
      modifies this`identity, this`projectModule, this`projectVariable, slot
      ensures slot.singleton == this && cachedMode == old(cachedMode)
      ensures ConfiguredProject(config) == "" ==>
                && err == None
                && identity == site.moduleName + ":" + site.variable
                && projectModule == site.moduleName && projectVariable == site.variable
      ensures ConfiguredProject(config) != "" ==>
                && identity == ConfiguredProject(config)
                && match SplitIdentity(identity)
                   case Ok(parts) => err == None && projectModule == parts.0 && projectVariable == parts.1
                   case Err(e) => err == Some(e) && projectModule == old(projectModule)
                                  && projectVariable == old(projectVariable)
    {
      slot.singleton := this;
      identity := ConfiguredProject(config);
      if identity == "" {
        projectModule := site.moduleName;
        projectVariable := site.variable;
        identity := projectModule + ":" + projectVariable;
        err := None;
      } else {
        var parts := SplitIdentity(identity);
        if parts.Err? {
          return Some(parts.error);
        }
        projectModule, projectVariable := parts.value.0, parts.value.1;
        err := None;
      }
    }

    /**
     * `apps_setup()`: for each path of `APPS` in order, imports its `app`,
     * names it after the path's last segment when it has no name, sets its
     * `module` and `project`, stores it in `apps` under its name and runs
     * its `setup()`.  The first path that does not resolve stops the loop.
     */
    method AppsSetup(modules: map<string, App<R, M>>) returns (err: Option<Error>)
      modifies this`apps, modules.Values`name, modules.Values`moduleName, modules.Values`project, modules.Values`setupCount
      ensures apps.Valid() && cachedMode == old(cachedMode)
      ensures identity == old(identity) && projectModule == old(projectModule) && projectVariable == old(projectVariable)
      ensures var regs := Registrations(config.apps, modules, old(NamesOf(modules.Values)));
              && apps == FromPairs(Pairs(regs))
              && (err.None? <==> |regs| == |config.apps|)
              && (err.Some? ==> err.value == ImportFailed(config.apps[|regs|]))
              && forall a :: a in modules.Values ==> Bound(a, regs, old(StateOf(a)), this)
      ensures (forall p :: p in config.apps ==> LastSegment(p) != "") ==>
                forall k :: k in apps.entries ==> apps.entries[k].name == k
    {
      ghost var names0 := NamesOf(modules.Values);
      ghost var before := map a | a in modules.Values :: StateOf(a);
      apps := Empty();
      ghost var regs;
      err, regs := RegisterEach(config.apps, modules, names0, before);
      assert names0 == old(NamesOf(modules.Values));
      assert forall a :: a in modules.Values ==> before[a] == old(StateOf(a));
      if forall p :: p in config.apps ==> LastSegment(p) != "" {
        forall k | k in apps.entries
          ensures apps.entries[k].name == k
        {
          RegisteredUnderOwnName(config.apps, modules, names0, k);
        }
      }
    }

    /**
     * The loop of `apps_setup()` over `paths`, on an empty `apps`.  Ghost:
     * `names` and `before` are the apps' names and states before the loop;
     * `regs` are the registrations made.
     */
    method RegisterEach(paths: seq<string>, modules: map<string, App<R, M>>,
                        ghost names: map<App<R, M>, string>, ghost before: map<App<R, M>, AppState<R, M>>)
      returns (err: Option<Error>, ghost regs: seq<Registration<R, M>>)
      requires apps == Empty()
      requires forall a :: a in modules.Values ==>
                 a in names && a in before && names[a] == before[a].name && StateOf(a) == before[a]
      modifies this`apps, modules.Values`name, modules.Values`moduleName, modules.Values`project, modules.Values`setupCount
      ensures regs == Registrations(paths, modules, names)
      ensures apps.Valid() && apps == FromPairs(Pairs(regs))
      ensures err.None? <==> |regs| == |paths|
      ensures err.Some? ==> err.value == ImportFailed(paths[|regs|])
      ensures AllBound(modules.Values, regs, before, this)
    {
      regs := [];
      err := None;
      AllBoundInitially(modules.Values, before, this);
      var i := 0;
      while i < |paths|
        invariant 0 <= i <= |paths| && |regs| == i
        invariant regs == Registrations(paths[..i], modules, names)
        invariant apps == FromPairs(Pairs(regs))
        invariant AllBound(modules.Values, regs, before, this)
      {
        var path := paths[i];
        if path !in modules {
          err := Some(ImportFailed(path));
          RegistrationsEnd(paths, modules, names, i);
          return;
        }
        var app := modules[path];
        assert app in modules.Values;
        ghost var g := Register(path, app, modules.Values, regs, before);
        RegistrationsNext(paths, modules, names, i);
        regs := regs + [g];
        i := i + 1;
      }
      assert paths[..i] == paths;
    }

    /**
     * The body of the `apps_setup` loop for the app `app` imported from
     * `path`: names it after the path's last segment when it has no name,
     * binds it to the path and this project, stores it under its name and
     * sets it up.
     */
    method Install(path: string, app: App<R, M>)
      requires apps.Valid()
      modifies this`apps, app`name, app`moduleName, app`project, app`setupCount
      ensures app.name == RegisteredName(old(app.name), path)
      ensures app.moduleName == Some(path) && app.project == this
      ensures app.setupCount == old(app.setupCount) + 1
      ensures apps == old(apps).Set(app.name, app)
    {
      if app.name == "" {
        app.name := LastSegment(path);
      }
      app.moduleName := Some(path);
      app.project := this;
      apps := apps.Set(app.name, app);
      app.Setup();
    }

    /**
     * `Install`, with its effect on the registrations: `done` are the
     * registrations so far and `before` the states of the apps `objs`
     * before the first; the pass adds `g`.
     */
    method Register(path: string, app: App<R, M>, ghost objs: set<App<R, M>>,
                    ghost done: seq<Registration<R, M>>, ghost before: map<App<R, M>, AppState<R, M>>)
      returns (ghost g: Registration<R, M>)
      requires app in objs
      requires apps == FromPairs(Pairs(done))
      requires AllBound(objs, done, before, this)
      modifies this`apps, app`name, app`moduleName, app`project, app`setupCount
      ensures g == Registration(RegisteredName(NameAfter(done, app, before[app].name), path), path, app)
      ensures apps == FromPairs(Pairs(done + [g]))
      ensures AllBound(objs, done + [g], before, this)
    {
      ghost var states := StatesOf(objs);
      g := Registration(RegisteredName(app.name, path), path, app);
      Install(path, app);
      PairsSnoc(done, g);
      FromPairsSnoc(Pairs(done), g.name, g.app);
      ghost var after := StatesOf(objs);
      forall a | a in objs && a != app
        ensures after[a] == states[a]
      {
      }
      AllBoundStep(states, after, done, g, before, this);
    }

    /** `self.apps.values()`, in registration order. */
    function Registered(): seq<App<R, M>>
      reads this`apps
      requires apps.Valid()
    {
      apps.Values()
    }

    /** `mode`: computed once from the process signals, then the cached value. */
    method Mode(argv: seq<string>, loaded: set<string>) returns (m: RunMode)
      modifies this`cachedMode
      ensures old(cachedMode).Some? ==> m == old(cachedMode).value
      ensures old(cachedMode).None? ==> m == Classify(argv, loaded)
      ensures cachedMode == Some(m)
    {
      if cachedMode.None? {
        cachedMode := Some(Classify(argv, loaded));
      }
      m := cachedMode.value;
    }

    /** `routes()`: the mount of each registered app that has one, in registration order. */
    method Routes() returns (r: Result<seq<Mount<R>>, Error>)
      requires apps.Valid()
      ensures r == Mounts(Registered())
    {
      var all := Registered();
      ghost var results := MountResults(all);
      MountResultsAt(all);
      var mounts := [];
      var i := 0;
      while i < |all|
        invariant 0 <= i <= |all|
        invariant Collect(results[..i]) == Ok(mounts)
      {
        var app := all[i];
        var mount := app.GetMount();
        CollectStep(results, i);
        if mount.Err? {
          CollectFirstError(results, i);
          return Err(mount.error);
        }
        if mount.value.Some? {
          mounts := mounts + [mount.value.value];
        } else {
          assert mounts + [] == mounts;
        }
        i := i + 1;
      }
      assert results[..i] == results;
      r := Ok(mounts);
    }

    /** The middleware loop of `starlette()`: each registered app's middleware appended in turn. */
    method AddMiddleware(given: seq<M>) returns (middleware: seq<M>)
      requires apps.Valid()
      ensures middleware == given + Middlewares(Registered())
    {
      var all := Registered();
      ghost var lists := MiddlewareLists(all);
      MiddlewareListsAt(all);
      middleware := given;
      var i := 0;
      while i < |all|
        invariant 0 <= i <= |all|
        invariant middleware == given + Concat(lists[..i])
      {
        var app := all[i];
        ConcatStep(lists, i);
        middleware := middleware + app.GetMiddlewares([]);
        i := i + 1;
      }
      assert lists[..i] == lists;
    }

    /**
     * `starlette(**kwargs)`: the keyword arguments handed to `Starlette`.
     * Each of `debug`, `middleware`, `on_startup` and `routes` keeps the
     * caller's value when given; the apps' middleware is appended in
     * registration order, one project startup hook is appended, and the
     * apps' mounts are appended to the routes.  Reading `mode` caches it
     * even when the caller passes `debug`.
     */
    method Starlette<H>(kwargs: Kwargs<R, M, H>, argv: seq<string>, loaded: set<string>)
      returns (r: Result<StarletteArgs<R, M, H>, Error>)
      requires apps.Valid()
      modifies this`cachedMode
      ensures old(cachedMode).Some? ==> cachedMode == old(cachedMode)
      ensures old(cachedMode).None? ==> cachedMode == Some(Classify(argv, loaded))
      ensures r.Ok? <==> Mounts(Registered()).Ok?
      ensures r.Err? ==> r.error == Mounts(Registered()).error
      ensures r.Ok? ==>
                && r.value.debug == (if kwargs.debug.Some? then kwargs.debug.value else DebugDefault(cachedMode.value))
                && r.value.middleware == Given(kwargs.middleware) + Middlewares(Registered())
                && r.value.onStartup == Given(kwargs.onStartup) + [ProjectStartup]
                && r.value.routes == Given(kwargs.routes) + AsEntries(Mounts(Registered()).value)
    {
      var mode := Mode(argv, loaded);
      var debug := if kwargs.debug.Some? then kwargs.debug.value else DebugDefault(mode);

      var middleware := AddMiddleware(Given(kwargs.middleware));

      var onStartup := Given(kwargs.onStartup) + [ProjectStartup];

      ghost var appended := Middlewares(Registered());
      var mounts := Routes();
      assert appended == Middlewares(Registered());
      if mounts.Err? {
        return Err(mounts.error);
      }
      var routes := Given(kwargs.routes) + AsEntries(mounts.value);
      r := Ok(StarletteArgs(debug, middleware, onStartup, routes));
    }
  }

  /** The keyword arguments a caller passes to `starlette()`; `None` where the keyword is absent. */
  datatype Kwargs<R, M, H> = Kwargs(
    debug: Option<bool>,
    middleware: Option<seq<M>>,
    onStartup: Option<seq<Hook<H>>>,
    routes: Option<seq<RouteEntry<R>>>)

  /** The keyword arguments `starlette()` hands to the `Starlette` constructor. */
  datatype StarletteArgs<R, M, H> = StarletteArgs(
    debug: bool,
    middleware: seq<M>,
    onStartup: seq<Hook<H>>,
    routes: seq<RouteEntry<R>>)

  /** `kwargs.setdefault(key, [])` for a list-valued keyword. */
  function Given<T>(value: Option<seq<T>>): seq<T> {
    if value.Some? then value.value else []
  }

  /** The mounts as entries of a route list. */
  function AsEntries<R>(mounts: seq<Mount<R>>): seq<RouteEntry<R>> {
    seq(|mounts|, i requires 0 <= i < |mounts| => Mounted(mounts[i]))
  }

  /**
   * `Project(**settings)`: the constructor, `project_setup()` and, when
   * that does not raise, `apps_setup()`.  The class slot points to the new
   * project even when construction raises.
   */
  method NewProject<R, M>(settings: Config, slot: ProjectSlot<R, M>, site: CallSite,
                          modules: map<string, App<R, M>>)
    returns (p: Project<R, M>, err: Option<Error>)
    modifies slot, modules.Values`name, modules.Values`moduleName, modules.Values`project, modules.Values`setupCount
    ensures fresh(p) && p.config == settings && p.cachedMode == None
    ensures slot.Current() == Some(p)
    ensures p.apps.Valid()
    ensures ConfiguredProject(settings) == "" ==>
              && p.identity == site.moduleName + ":" + site.variable
              && p.projectModule == site.moduleName && p.projectVariable == site.variable
    ensures ConfiguredProject(settings) != "" ==>
              && p.identity == ConfiguredProject(settings)
              && match SplitIdentity(ConfiguredProject(settings))
                 case Ok(parts) => p.projectModule == parts.0 && p.projectVariable == parts.1
                 case Err(_) => p.projectModule == "" && p.projectVariable == ""
    ensures ConfiguredProject(settings) != "" && SplitIdentity(ConfiguredProject(settings)).Err? ==>
              && err == Some(SplitIdentity(ConfiguredProject(settings)).error)
              && p.apps == Empty()
              && forall a :: a in modules.Values ==> StateOf(a) == old(StateOf(a))
    ensures ConfiguredProject(settings) == "" || SplitIdentity(ConfiguredProject(settings)).Ok? ==>
              var regs := Registrations(settings.apps, modules, old(NamesOf(modules.Values)));
              && p.apps == FromPairs(Pairs(regs))
              && (err.None? <==> |regs| == |settings.apps|)
              && (err.Some? ==> err.value == ImportFailed(settings.apps[|regs|]))
              && forall a :: a in modules.Values ==> Bound(a, regs, old(StateOf(a)), p)
  {
    ghost var names0 := NamesOf(modules.Values);
    p := new Project(settings);
    err := p.ProjectSetup(slot, site);
    assert NamesOf(modules.Values) == names0;
    if err.None? {
      err := p.AppsSetup(modules);
    }
  }
}
