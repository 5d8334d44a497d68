# starlette-apps composition layer, in Dafny

This project models `apps.py` of starlette-apps. That file holds the layer that composes
per-feature sub-applications into one Starlette application:

- `App` is a descriptor of one feature. It carries a name, routes and middleware, each taken
  from the constructor argument or else from the subclass's class attributes. It can produce
  a `Mount` of its routes under `'/' + pattern`.
- `Project` is built from settings.
  - It publishes itself in the class-level `_singleton` slot.
  - It resolves its `module:variable` identity.
  - It imports the app of every dotted path in `APPS`. It names each app after the path's
    last segment when the app has no name. It binds the app to the path and to the project,
    stores it in the `apps` dict under its name and runs its `setup()` hook.
  - `mode` classifies the run once and caches the result.
  - `starlette(**kwargs)` assembles the keyword arguments of the application. Each keyword
    keeps the caller's value when one is given. The apps' middleware is appended in registry
    order, one startup hook of the project is appended, and the apps' mounts (`routes()`)
    are appended to the routes.

Modules:

- `wrappers.dfy` (`Wrappers`): `Option` and `Result`. A raised exception becomes an `Err`.
- `text.dfy` (`Text`): the Python string operations the layer uses:
  - `str.lower` on ASCII letters;
  - `str.split` on one separator;
  - `str.join`.

  It proves that `split` and `join` round-trip.
- `dicts.dfy` (`Dicts`): a Python `dict` with string keys, as insertion-ordered keys next to
  a map. Assigning to an existing key replaces the value and keeps the key's place.
- `apps.dfy` (`Apps`):
  - `App` and `Project` are classes whose fields the methods update, as the source does.
  - The pure operations (`get_middlewares`, `get_routes`, `get_pattern`, `get_mount`) are
    functions.
  - `apps_setup`, `mode`, `routes`, the middleware loop of `starlette` and `project_setup`
    are methods, proved against specification functions (`Registrations`, `Classify`,
    `Mounts`, `Middlewares`, `SplitIdentity`).

Routes, middleware and startup hooks are opaque type parameters. A module import is a
lookup in a map from dotted path to app. An app's `setup()` hook is observed through the
counter `setupCount`. The base hook does nothing else, and the test subclass records only
that it ran.

Three behaviours of the code worth knowing:

- `mode` tests `'--reload'` in the arguments before `'pytest'` among the loaded modules
  (apps.py:97-102), so a reload under pytest is `dev`.
- `starlette()` builds a new application on every call (apps.py:118); nothing is cached.
  `Apps.Project.Starlette` has no cache.
- `project_setup` writes `_singleton` before it splits the identity (apps.py:65, 77), so
  the slot points to the new project even when the split raises (`Apps.NewProject`).

## Model

| member | source | states |
|---|---|---|
| `Apps.App.constructor` | apps.py:13-21 | each of name, routes and middlewares is the argument when truthy, else the class attribute, else the type name or `[]`; the app starts unbound and never set up |
| `Apps.Layered` | apps.py:19-21 | `argument or getattr(self, attr, fallback)`: the argument when truthy, else the class attribute when defined, else the fallback; its contract is carried by the ensures of `Apps.App.constructor` |
| `Apps.App.MiddlewaresFirst` | apps.py:23-24 | `get_middlewares(*extra)` holds the app's middleware at their own indices, followed by the extras, and nothing else |
| `Apps.App.GetMiddlewares` | apps.py:23-24 | `get_middlewares(*extra)`; its contract is carried by `Apps.App.MiddlewaresFirst` |
| `Apps.App.GetPattern` | apps.py:26-27 | a `pattern` attribute wins; otherwise the pattern is as long as the name |
| `Apps.App.PatternFromName` | apps.py:26-27 | without a `pattern` attribute, each character of the pattern is the name's character lowered, and no capital remains |
| `Text.LowerAt` | apps.py:27 | `lower()` maps each character on its own and leaves no ASCII capital |
| `Text.Lower` | apps.py:27 | `str.lower` on ASCII letters; the result is as long as the input, and `Text.LowerAt` carries the rest of its contract |
| `Apps.App.MountCases` | apps.py:29-35 | with routes the app always mounts; without routes, `controllers` is read and then `views`, it raises `AttributeError` on the first attribute that is missing, and it mounts nothing only when both are false; every mount is `Mount('/' + pattern, name, routes)` |
| `Apps.App.GetMount` | apps.py:29-35 | `get_mount()`; its contract is carried by `Apps.App.MountCases` |
| `Apps.App.RoutesAfterExtras` | apps.py:37-38 | `get_routes(*extra)` holds the extras first, then the app's routes at their own indices |
| `Apps.App.GetRoutes` | apps.py:37-38 | `get_routes(*extra)`; its contract is carried by `Apps.App.RoutesAfterExtras` |
| `Apps.App.Setup` | apps.py:40-41 | the hook runs once per call |
| `Apps.ProjectSlot.Current` | apps.py:49-56 | `current()` returns the project in the slot when there is one |
| `Apps.ProjectSlot.constructor` | apps.py:51 | the slot starts empty, as before any project is constructed (`'_singleton' not in cls.__dict__`); `Apps.ProjectSlot.Current` then returns `None` |
| `Apps.Project.constructor` | apps.py:58-59 | a new project holds its settings, an empty registry and no cached mode |
| `Apps.ConfiguredProject` | apps.py:66-67 | `self.config('PROJECT', default=None)` under the `not self.project` test, with a missing and an empty value both read as `""`; its contract is carried by `Apps.Project.ProjectSetup` and `Apps.NewProject` |
| `Apps.NewProject` | apps.py:58-61 | construction publishes the project in the slot even when it raises, with no cached mode; the identity, module and variable are those `project_setup` takes from the call site or from `PROJECT`; a malformed `PROJECT` raises before any app is touched; otherwise the registry and every app are as `apps_setup` leaves them, and an import failure names the first path that does not import; only the apps' name, module, project and setup count can change |
| `Apps.Project.ProjectSetup` | apps.py:63-78 | the slot points to this project; with no `PROJECT`, the identity is `module:variable` from the call site; otherwise the identity is `PROJECT` and is split on its one colon, and a malformed identity raises and leaves module and variable unchanged |
| `Apps.SplitIdentity` | apps.py:77 | `a, b = s.split(':')` succeeds exactly when `s` has one colon, and then `s == a + ':' + b` with no colon in either part; otherwise it raises with the number of pieces found |
| `Apps.IdentityRoundTrip` | apps.py:72-77 | an identity written as `module:variable` from colon-free parts splits back into those parts |
| `Text.SplitCount` | apps.py:77 | a split has one more piece than there are separators |
| `Text.JoinSplit` | apps.py:77 | joining the pieces of a split gives back the string |
| `Text.SplitJoin` | apps.py:72-77 | splitting a join of separator-free pieces gives back the pieces |
| `Text.SplitAround` | apps.py:88 | the pieces of `x + sep + y` are the pieces of `x` followed by those of `y` |
| `Text.Split` | apps.py:77 | `str.split(sep)` on one separator, as at apps.py:77 and 88; there is always at least one piece, and `Text.SplitCount`, `Text.JoinSplit`, `Text.SplitJoin` and `Text.SplitAround` carry the rest of its contract |
| `Apps.LastSegment` | apps.py:88 | `path.split('.')[-1]` contains no dot |
| `Apps.LastSegmentAfterDot` | apps.py:88 | the last segment of `prefix.s` is `s` |
| `Apps.LastSegmentUndotted` | apps.py:88 | a path without a dot names the app after itself |
| `Apps.RegisteredName` | apps.py:87-88 | the name an app has after `if not app.name: app.name = arg.split('.')[-1]`; its contract is carried by `Apps.Project.Install`, `Apps.NamesStable`, `Apps.LastSegmentAfterDot` and `Apps.LastSegmentUndotted` |
| `Apps.Project.AppsSetup` | apps.py:80-92 | the registry is exactly the dict that assigning each registration's name and app in turn builds; it fails exactly when a path does not import, and the error names the first such path; every app is named, bound and set up once per registration, untouched apps stay as they were, and no app's routes or middleware change, nor the project's identity or cached mode; when every path has a non-empty last segment, each key maps to an app of that name |
| `Apps.Project.RegisterEach` | apps.py:83-92 | the loop over `APPS` makes exactly the registrations `Registrations` describes, builds the dict from them and stops at the first path that does not import |
| `Apps.Project.Install` | apps.py:87-92 | one pass defaults a falsy name to the last segment, binds the module path and the project, counts one `setup()` and assigns the app under its name |
| `Apps.Project.Register` | apps.py:85-92 | one pass adds the registration `Registrations` predicts, assigns its pair to the dict, and keeps every other app bound as it was |
| `Apps.Registrations` | apps.py:83-92 | at most one registration per path, and fewer exactly when the first path not registered does not import |
| `Apps.RegistrationsResolve` | apps.py:84-86 | registration `i` is of the app imported from path `i` |
| `Apps.RegistrationsStop` | apps.py:84-86 | after a path fails to import, the later paths add nothing |
| `Apps.AllBoundStep` | apps.py:87-92 | a registration binds its own app to its name, path and project with one more setup, and leaves every other app as it was |
| `Apps.NamesStable` | apps.py:87-88 | with non-empty last segments, every registration has a name, and an app registered twice keeps the name it was first given |
| `Apps.KeyedByLastName` | apps.py:91 | each key of the built dict holds an app whose last registration used that key |
| `Apps.RegisteredUnderOwnName` | apps.py:87-91 | with non-empty last segments, every key of the registry holds an imported app whose final name is the key |
| `Dicts.Dict.Set` | apps.py:91 | `d[k] = v` maps `k` to `v`; a new key goes last, and an existing key keeps its place |
| `Dicts.FromPairsKeys` | apps.py:81-91 | the keys are in the order of their first assignment; later duplicates do not move them |
| `Dicts.FromPairsLastWins` | apps.py:91 | under each key is the value of the last assignment to it |
| `Dicts.FromPairsDomain` | apps.py:91 | the dict has exactly the keys that were assigned |
| `Dicts.FromPairsDistinct` | apps.py:91 | with distinct names, `values()` lists every app in registration order |
| `Dicts.LookupAt` | apps.py:109 | `values()` lists the value under each key, in key order |
| `Dicts.Dict.Values` | apps.py:109 | `dict.values()`, as at apps.py:109 and 122, has one value per key; `Dicts.LookupAt` and `Dicts.FromPairsDistinct` carry the rest of its contract |
| `Apps.Project.Registered` | apps.py:109 | `self.apps.values()`, as at apps.py:109 and 122; its contract is carried by `Dicts.LookupAt` and `Dicts.FromPairsDistinct`, and `Apps.Project.AddMiddleware` and `Apps.Project.Routes` are proved against it |
| `Apps.Classify` | apps.py:96-102 | `dev` exactly when `'--reload'` is an argument; `test` exactly when it is not and `pytest` is loaded; `production` otherwise |
| `Apps.DebugDefault` | apps.py:106 | `self.mode in ('test', 'dev')`; its contract is carried by the `debug` ensures of `Apps.Project.Starlette` |
| `Apps.Project.Mode` | apps.py:94-103 | the first read classifies and caches; later reads return the cached mode whatever the arguments now are |
| `Apps.Project.AddMiddleware` | apps.py:108-110 | the middleware is the caller's list (or `[]`) followed by every app's `get_middlewares()`, in registry order |
| `Apps.Middlewares` | apps.py:108-110 | the middleware the loop over the apps appends, each app's `get_middlewares()` in order; its contract is carried by `Apps.MiddlewareListsAt`, `Apps.MiddlewaresAppend` and `Apps.MiddlewaresMember`, and `Apps.Project.AddMiddleware` is proved against it |
| `Apps.MiddlewareListsAt` | apps.py:109-110 | the aggregate takes each app's `get_middlewares()` at the app's own position |
| `Apps.MiddlewaresAppend` | apps.py:109-110 | aggregating the middleware of two app lists is concatenating their aggregates |
| `Apps.MiddlewaresMember` | apps.py:109-110 | a middleware is in the aggregate exactly when some registered app declares it |
| `Apps.Project.Starlette` | apps.py:105-118 | `debug`, `middleware`, `on_startup` and `routes` keep the caller's values; `debug` otherwise follows the mode, which is read and cached even when `debug` is given; the apps' middleware is appended; exactly one project startup hook is appended; the apps' mounts are appended to the routes; an error raised by `get_mount` propagates |
| `Apps.Given` | apps.py:108 | `kwargs.setdefault(key, [])` for the list keywords (also at apps.py:112 and 115): the caller's list when given, else `[]`; its contract is carried by the ensures of `Apps.Project.Starlette` |
| `Apps.Project.Routes` | apps.py:120-126 | `routes()` is `Mounts` of the registered apps: the mounts in registry order, skipping the apps that mount nothing, or the first error raised |
| `Apps.Mounts` | apps.py:120-126 | what `routes()` returns for a list of apps: `Apps.Collect` of their `get_mount()` results; its contract is carried by `Apps.MountsOk`, `Apps.MountsMember` and `Apps.MountsAllRouted`, and `Apps.Project.Routes` is proved against it |
| `Apps.Collect` | apps.py:121-126 | the collected mounts are never more than the apps |
| `Apps.Share` | apps.py:123-125 | one pass of `if mount: routes.append(mount)`: an error propagates, `None` adds nothing, a mount adds itself; its contract is carried by `Apps.CollectSkipsNone`, `Apps.CollectMember` and `Apps.CollectAllMounted` |
| `Apps.CollectFirstError` | apps.py:122-123 | the first `get_mount()` that raises decides the outcome |
| `Apps.CollectAppend` | apps.py:122-125 | collecting two runs of results is combining their collections, and the earlier error wins |
| `Apps.CollectSkipsNone` | apps.py:123-125 | an app whose mount is `None` adds nothing, and the mounts before and after it keep their order |
| `Apps.CollectMember` | apps.py:122-125 | a successful collection holds exactly the mounts that some result carries |
| `Apps.CollectOk` | apps.py:120-126 | collecting succeeds exactly when no result is an error |
| `Apps.CollectAllMounted` | apps.py:122-125 | results that are all mounts are collected one each, in order |
| `Apps.MountsOk` | apps.py:120-126 | `routes()` succeeds exactly when no registered app's `get_mount()` raises |
| `Apps.MountsMember` | apps.py:120-126 | when `routes()` succeeds, it holds exactly the mounts some registered app's `get_mount()` returns |
| `Apps.MountsAllRouted` | apps.py:120-126 | apps that all have routes contribute one mount each, in registry order, under `'/' + pattern` and their own name and routes |

## Left out

- The `Starlette` constructor is a foreign library call. `Apps.Project.Starlette` returns the
  keyword arguments it would receive.
- Other keyword arguments that `starlette()` passes through unchanged are not modelled.
- Apps.Project.Starlette: the source changes the caller's own lists in place. It extends a
  caller-supplied `middleware` or `routes` list with `+=` (apps.py:110, 116) and appends the
  startup hook to a caller-supplied `on_startup` list with `.append` (apps.py:113). So after
  `hooks = []; project.starlette(on_startup=hooks)` the caller's `hooks` holds the hook, and
  each further call with the same list adds one more. The model returns new sequences, so
  none of this aliasing is captured.
- Apps.Project.Starlette: a keyword passed explicitly as `None` is not modelled. In the model
  a keyword is either absent or holds a value, so its `None` means absent. In the source
  `setdefault` keeps an explicit `None`, with four different outcomes:
  - `debug=None` reaches `Starlette` as `None` (apps.py:106). The model uses the mode default
    instead.
  - `middleware=None` raises `TypeError` at `+=` only when at least one app is registered
    (apps.py:109-110). With an empty registry the `None` reaches `Starlette` unchanged. The
    model uses `[]` in both cases.
  - `on_startup=None` raises `AttributeError` at `.append` (apps.py:113). The model uses `[]`.
  - `routes=None` raises `TypeError` at `+=` (apps.py:116), whether or not any app mounts, unless
  `routes()` raises first. The
    model uses `[]`.
- Apps.Project.constructor: in the source a project has no `apps` attribute until
  `apps_setup` runs (apps.py:81), nor `project_module` and `project_variable` until
  `project_setup` assigns them. The model starts with an empty registry and empty strings.
  So a project left in the slot by a failed `project_setup` (for example `PROJECT = "a:b:c"`)
  answers `routes()` with no mounts in the model, where the source raises `AttributeError`.
- `Config('.env', settings)` and `CommaSeparatedStrings` are library code. `Config` is a map
  of strings with `APPS` already split into paths.
- `importlib.import_module(path).app` is I/O. It is a map from dotted path to app, and a
  path missing from the map is `ImportFailed`.
- Apps.Project.Install: `app.module` holds the imported module object. The model records its
  dotted path.
- Apps.ProjectSlot.Current: only the cached path is modelled. The import-based fallback at
  apps.py:51-55 needs the environment and `importlib`. It returns `None` where that fallback
  would run.
- Apps.Project.ProjectSetup: the call-site branch reads `inspect.stack()`. It is a
  `CallSite` parameter: the file name without `.py` and the assigned variable. The
  `os.environ['PROJECT']` write is process state and is not modelled.
- `sys.argv` and `sys.modules` are parameters of `Mode` and `Starlette`.
- The async `Project.startup` (apps.py:128-130) and `App.startup` are not modelled. Only the
  one hook that `starlette()` appends is (`ProjectStartup`). The hook would fail when awaited,
  because it iterates `self.app`, which does not exist.
- Text.Lower: `str.lower` is modelled on ASCII letters only. Other characters are unchanged.
- Apps.App.constructor: a falsy `name`, `routes` or `middlewares` argument (`None`, `''`,
  `[]`) is represented by the empty value. A class attribute is taken whatever its value.
- Apps.Project.Install: `getattr(app, 'name', None)` on an app without a `name` attribute
  is represented by the empty name. Every constructed `App` has the attribute.
- Apps.App.Setup: `setup()` is modelled as the base hook, observed only as a counter. An
  overriding `setup()` that raises would abort `apps_setup` right after the app is stored
  (apps.py:91-92), and one that changes other apps or `project.apps` would change the
  registry. Neither is captured, so `Apps.Project.AppsSetup` fails only on a path that does
  not import.
- `controllers` and `views` are recorded by their truthiness. `None` stands for an
  attribute the class does not define.
