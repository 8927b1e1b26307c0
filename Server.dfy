/** The static server of the explorer (server.js): the merge of the default
    configuration with the environment, the route a request takes, and the
    port the server listens on. Reading files and answering sockets are the
    world outside: the parsed default configuration, the environment, JSON
    parsing and the file system are parameters. */
module Server {
  import opened Common

  const PORT: int := 80
  const CONFIG_ROUTE: string := "/config"
  const STATIC_FOLDER: string := "/www"
  const INDEX_HTML: string := "/index.html"

  // -----------------------------------------------------------------------
  // readConfig
  // -----------------------------------------------------------------------

  /** The value an environment entry contributes: its JSON parse, or the raw
      text when parsing throws (`None`). */
  function EnvValue(raw: string, parse: string -> Option<Value>): (v: Value)
    ensures parse(raw).Some? ==> v == parse(raw).value
    ensures parse(raw).None? ==> v == Str(raw)
  {
    match parse(raw)
    case Some(parsed) => parsed
    case None => Str(raw)
  }

  /** An environment key is read only when the default configuration holds
      a truthy value under it. */
  predicate Overridable(defaults: map<string, Value>, key: string) {
    Truthy(Get(defaults, key))
  }

  /** `parsedENV` once every environment key has been visited. */
  function ParsedEnvOf(defaults: map<string, Value>, env: map<string, string>,
                       parse: string -> Option<Value>): map<string, Value> {
    map key | key in env.Keys && Overridable(defaults, key) :: EnvValue(env[key], parse)
  }

  /** `readConfig` after the default file has been read and parsed: visits
      the environment keys one at a time, then spreads the parsed entries over
      the defaults. The keys are visited in an order the model leaves open;
      the result does not depend on it. */
  method ReadConfig(defaults: map<string, Value>, env: map<string, string>,
                    parse: string -> Option<Value>)
    returns (merged: map<string, Value>)
    ensures merged == defaults + ParsedEnvOf(defaults, env, parse)
  {
    var parsedEnv: map<string, Value> := map[];
    var remaining := env.Keys;
    while remaining != {}
      invariant remaining <= env.Keys
      invariant parsedEnv ==
        map key | key in env.Keys - remaining && Overridable(defaults, key) :: EnvValue(env[key], parse)
      decreases remaining
    {
      var key :| key in remaining;
      if Overridable(defaults, key) {
        parsedEnv := parsedEnv[key := EnvValue(env[key], parse)];
      }
      remaining := remaining - {key};
    }
    merged := defaults + parsedEnv;
  }

  /** The merged configuration has exactly the default keys; a falsy default,
      or one the environment does not name, is kept; any other default is
      replaced by the environment's parsed value, or its raw text. */
  lemma MergedConfigRules(defaults: map<string, Value>, env: map<string, string>,
                          parse: string -> Option<Value>)
    ensures var merged := defaults + ParsedEnvOf(defaults, env, parse);
      merged.Keys == defaults.Keys &&
      (forall key :: key in defaults && (!Truthy(defaults[key]) || key !in env) ==>
        merged[key] == defaults[key]) &&
      (forall key :: key in defaults && Truthy(defaults[key]) && key in env ==>
        merged[key] == EnvValue(env[key], parse))
  {
    var parsedEnv := ParsedEnvOf(defaults, env, parse);
    assert parsedEnv.Keys <= defaults.Keys by {
      forall key | key in parsedEnv ensures key in defaults {
        assert Overridable(defaults, key);
      }
    }
  }

  // -----------------------------------------------------------------------
  // Paths
  // -----------------------------------------------------------------------

  /** One segment of a path applied to the entries resolved so far: empty
      and `.` segments change nothing, `..` steps up (never above the root
      `/`, which is the empty list), any other name steps down into it. */
  function ResolveStep(resolved: seq<string>, segment: string): seq<string> {
    if segment == "" || segment == "." then resolved
    else if segment == ".." then (if resolved == [] then [] else resolved[..|resolved| - 1])
    else resolved + [segment]
  }

  /** The lexical resolution of an absolute path's segments, from the root:
      `.` and empty segments are dropped and `..` removes the entry before
      it, whether or not that entry exists or is a directory. */
  function ResolveSegments(segments: seq<string>): (r: seq<string>)
    ensures forall i :: 0 <= i < |r| ==> r[i] != "" && r[i] != "." && r[i] != ".."
    ensures |r| <= |segments|
  {
    if segments == [] then []
    else ResolveStep(ResolveSegments(segments[..|segments| - 1]), segments[|segments| - 1])
  }

  /** Resolving one more segment is one more step. */
  lemma ResolveSnoc(segments: seq<string>, segment: string)
    ensures ResolveSegments(segments + [segment]) == ResolveStep(ResolveSegments(segments), segment)
  {
    assert (segments + [segment])[..|segments|] == segments;
  }

  /** A name the file system takes as one entry of a directory. */
  predicate SimpleName(name: string) {
    name != "" && name != "." && name != ".." && '/' !in name
  }

  /** The server's directory `__dirname`, as the entries from the root: an
      absolute path with no `.` or `..` left in it. */
  predicate ServerDir(dir: seq<string>) {
    forall i :: 0 <= i < |dir| ==> SimpleName(dir[i])
  }

  /** A resolved directory resolves to itself. */
  lemma {:induction false} ResolveServerDir(dir: seq<string>)
    requires ServerDir(dir)
    ensures ResolveSegments(dir) == dir
  {
    if dir != [] {
      var init := dir[..|dir| - 1];
      assert ServerDir(init) by {
        forall i | 0 <= i < |init| ensures SimpleName(init[i]) {
          assert init[i] == dir[i];
        }
      }
      ResolveServerDir(init);
      assert init + [dir[|dir| - 1]] == dir;
    }
  }

  /** The file `__dirname + path` names, as entries from the root: the
      segments of the server's directory followed by those of `path`. */
  function ResolvePath(dir: seq<string>, path: string): seq<string> {
    ResolveSegments(dir + Split(path, '/'))
  }

  /** A resolved file lies in the static folder `<dir>/www`. */
  predicate InStaticFolder(dir: seq<string>, file: seq<string>) {
    |file| > |dir| + 1 && file[..|dir| + 1] == dir + ["www"]
  }

  // -----------------------------------------------------------------------
  // Routing
  // -----------------------------------------------------------------------

  /** What a read of a resolved file gives: its content, or the read error. */
  type FileSystem = seq<string> -> Result<string>

  datatype Body =
    | ConfigBody(config: map<string, Value>)
    | FileBody(file: seq<string>, data: string)
    | ErrorBody(error: string)

  datatype Response = Response(status: int, contentType: Option<string>, body: Body)

  /** The url after the handler's rewrite of `/`. */
  function ServedUrl(url: string): (r: string)
    ensures url == "/" ==> r == INDEX_HTML
    ensures url != "/" ==> r == url
    ensures r != "/"
  {
    if url == "/" then INDEX_HTML else url
  }

  /** The index page, the fallback for every file that cannot be read. */
  function IndexFile(dir: seq<string>): seq<string> {
    ResolvePath(dir, STATIC_FOLDER + INDEX_HTML)
  }

  /** The answer for a file: its content, else the index page, else 404 with
      the index page's read error. */
  function ServeFile(dir: seq<string>, files: FileSystem, file: seq<string>): Response {
    match files(file)
    case Ok(data) => Response(200, None, FileBody(file, data))
    case Err(_) =>
      match files(IndexFile(dir))
      case Ok(data) => Response(200, None, FileBody(IndexFile(dir), data))
      case Err(error) => Response(404, None, ErrorBody(error))
  }

  /** The route a request takes, as written: the configuration route, or the
      static folder joined with the url; `dir` is the server's directory. */
  function Route(dir: seq<string>, url: string, config: map<string, Value>, files: FileSystem): Response {
    var served := ServedUrl(url);
    if served == CONFIG_ROUTE
    then Response(200, Some("application/json"), ConfigBody(config))
    else ServeFile(dir, files, ResolvePath(dir, STATIC_FOLDER + served))
  }

  /** The request handler: rewrites `/`, then routes. */
  method HandleRequest(dir: seq<string>, url: string, config: map<string, Value>, files: FileSystem)
    returns (response: Response)
    ensures response == Route(dir, url, config, files)
  {
    var requestUrl := url;
    if requestUrl == "/" {
      requestUrl := INDEX_HTML;
    }
    if requestUrl == CONFIG_ROUTE {
      response := Response(200, Some("application/json"), ConfigBody(config));
    } else {
      var file := ResolvePath(dir, STATIC_FOLDER + requestUrl);
      var read := files(file);
      if read.Ok? {
        response := Response(200, None, FileBody(file, read.value));
      } else {
        var index := files(IndexFile(dir));
        if index.Ok? {
          response := Response(200, None, FileBody(IndexFile(dir), index.value));
        } else {
          response := Response(404, None, ErrorBody(index.message));
        }
      }
    }
  }

  /** `/` is answered as `/index.html` is. */
  lemma RootIsIndex(dir: seq<string>, config: map<string, Value>, files: FileSystem)
    ensures Route(dir, "/", config, files) == Route(dir, INDEX_HTML, config, files)
  {
  }

  /** `/config` is answered with the merged configuration whatever the file
      system holds. */
  lemma ConfigRouteIgnoresFiles(dir: seq<string>, config: map<string, Value>, files: FileSystem, others: FileSystem)
    ensures Route(dir, CONFIG_ROUTE, config, files) == Response(200, Some("application/json"), ConfigBody(config))
    ensures Route(dir, CONFIG_ROUTE, config, files) == Route(dir, CONFIG_ROUTE, config, others)
  {
  }

  /** Any other url is answered with its file when that can be read, else
      with the index page, else with 404. */
  lemma MissingFileFallsBack(dir: seq<string>, url: string, config: map<string, Value>, files: FileSystem)
    requires ServedUrl(url) != CONFIG_ROUTE
    ensures var file := ResolvePath(dir, STATIC_FOLDER + ServedUrl(url));
      var r := Route(dir, url, config, files);
      (files(file).Ok? ==> r == Response(200, None, FileBody(file, files(file).value))) &&
      (files(file).Err? && files(IndexFile(dir)).Ok? ==>
        r == Response(200, None, FileBody(IndexFile(dir), files(IndexFile(dir)).value))) &&
      (files(file).Err? && files(IndexFile(dir)).Err? ==>
        r == Response(404, None, ErrorBody(files(IndexFile(dir)).message)))
  {
  }

  lemma SplitSimplePath(a: string, b: string)
    requires '/' !in a && '/' !in b
    ensures Split("/" + a + "/" + b, '/') == ["", a, b]
  {
    SplitWithoutSeparator(b, '/');
    SplitAtFirstSeparator(a, b, '/');
    SplitAtFirstSeparator("", a + "/" + b, '/');
    assert "/" + a + "/" + b == "" + ['/'] + (a + ['/'] + b);
  }

  /** A top-level entry of the static folder resolves inside it. */
  lemma StaticEntryResolves(dir: seq<string>, name: string)
    requires ServerDir(dir) && SimpleName(name)
    ensures ResolvePath(dir, STATIC_FOLDER + "/" + name) == dir + ["www", name]
    ensures InStaticFolder(dir, dir + ["www", name])
  {
    SplitSimplePath("www", name);
    assert STATIC_FOLDER + "/" + name == "/" + "www" + "/" + name;
    assert dir + Split(STATIC_FOLDER + "/" + name, '/') == dir + [""] + ["www"] + [name];
    ResolveServerDir(dir);
    ResolveSnoc(dir, "");
    ResolveSnoc(dir + [""], "www");
    ResolveSnoc(dir + [""] + ["www"], name);
    assert (dir + ["www", name])[..|dir| + 1] == dir + ["www"];
  }

  lemma IndexFileIsInStaticFolder(dir: seq<string>)
    requires ServerDir(dir)
    ensures IndexFile(dir) == dir + ["www", "index.html"]
    ensures InStaticFolder(dir, IndexFile(dir))
  {
    StaticEntryResolves(dir, "index.html");
    assert STATIC_FOLDER + INDEX_HTML == STATIC_FOLDER + "/" + "index.html";
  }

  /** `/www/../<name>` splits into its four segments. */
  lemma SplitParentOfStatic(name: string)
    requires SimpleName(name)
    ensures Split(STATIC_FOLDER + "/../" + name, '/') == ["", "www", "..", name]
  {
    SplitWithoutSeparator(name, '/');
    SplitAtFirstSeparator("..", name, '/');
    SplitAtFirstSeparator("www", ".." + "/" + name, '/');
    SplitAtFirstSeparator("", "www" + "/" + (".." + "/" + name), '/');
    assert STATIC_FOLDER + "/../" + name == "" + ['/'] + ("www" + ['/'] + (".." + ['/'] + name));
  }

  /** A `..` segment after the static folder steps back out of it, into the
      server's own directory. */
  lemma ParentOfStaticResolves(dir: seq<string>, name: string)
    requires ServerDir(dir) && SimpleName(name)
    ensures ResolvePath(dir, STATIC_FOLDER + "/../" + name) == dir + [name]
    ensures !InStaticFolder(dir, dir + [name])
  {
    SplitParentOfStatic(name);
    assert dir + Split(STATIC_FOLDER + "/../" + name, '/') == dir + [""] + ["www"] + [".."] + [name];
    ResolveServerDir(dir);
    ResolveSnoc(dir, "");
    ResolveSnoc(dir + [""], "www");
    ResolveSnoc(dir + [""] + ["www"], "..");
    assert (dir + ["www"])[..|dir|] == dir;
    ResolveSnoc(dir + [""] + ["www"] + [".."], name);
  }

  /** The separated segments of `/www/../../www/<name>`. */
  lemma ClimbToWwwShape(name: string)
    ensures STATIC_FOLDER + "/../../www/" + name ==
      "" + ['/'] + ("www" + ['/'] + (".." + ['/'] + (".." + ['/'] + ("www" + ['/'] + name))))
  {
  }

  /** `/www/../../www/<name>` splits into its seven segments. */
  lemma SplitClimbToWww(name: string)
    requires SimpleName(name)
    ensures Split(STATIC_FOLDER + "/../../www/" + name, '/') == ["", "www", "..", "..", "www", name]
  {
    var t1 := "www" + ['/'] + name;
    var t2 := ".." + ['/'] + t1;
    var t3 := ".." + ['/'] + t2;
    var t4 := "www" + ['/'] + t3;
    var t5 := "" + ['/'] + t4;
    ClimbToWwwShape(name);
    assert Split(t1, '/') == ["www", name] by {
      SplitWithoutSeparator(name, '/');
      SplitAtFirstSeparator("www", name, '/');
    }
    assert Split(t2, '/') == ["..", "www", name] by {
      SplitAtFirstSeparator("..", t1, '/');
    }
    assert Split(t3, '/') == ["..", "..", "www", name] by {
      SplitAtFirstSeparator("..", t2, '/');
    }
    assert Split(t4, '/') == ["www", "..", "..", "www", name] by {
      SplitAtFirstSeparator("www", t3, '/');
    }
    assert Split(t5, '/') == ["", "www", "..", "..", "www", name] by {
      SplitAtFirstSeparator("", t4, '/');
    }
  }

  /** `..` climbs above the server's directory too: with the server in
      `/app`, the url `/../../www/<name>` names `/www/<name>`, a folder called
      `www` at the root and not the static folder. */
  lemma ClimbAboveServerDir(name: string)
    requires SimpleName(name)
    ensures ResolvePath(["app"], STATIC_FOLDER + "/../../www/" + name) == ["www", name]
    ensures !InStaticFolder(["app"], ["www", name])
  {
    SplitClimbToWww(name);
    assert ServerDir(["app"]) by {
      assert SimpleName("app");
    }
    ResolveServerDir(["app"]);
    var s1 := ["app"] + [""];
    var s2 := s1 + ["www"];
    var s3 := s2 + [".."];
    var s4 := s3 + [".."];
    var s5 := s4 + ["www"];
    var s6 := s5 + [name];
    ResolveSnoc(["app"], "");
    ResolveSnoc(s1, "www");
    assert ResolveSegments(s2) == ["app", "www"];
    ResolveSnoc(s2, "..");
    assert ResolveSegments(s3) == ["app"];
    ResolveSnoc(s3, "..");
    assert ResolveSegments(s4) == [];
    ResolveSnoc(s4, "www");
    ResolveSnoc(s5, name);
    assert ["app"] + Split(STATIC_FOLDER + "/../../www/" + name, '/') == s6;
  }

  /** As written, a url with a `..` segment reaches files outside the static
      folder: `/../<name>` is read from the server's own directory, and served
      when it can be read. */
  lemma TraversalEscapesStaticFolder(dir: seq<string>, name: string, config: map<string, Value>, files: FileSystem)
    requires ServerDir(dir) && SimpleName(name)
    requires files(dir + [name]).Ok?
    ensures !InStaticFolder(dir, ResolvePath(dir, STATIC_FOLDER + "/../" + name))
    ensures Route(dir, "/../" + name, config, files) ==
            Response(200, None, FileBody(dir + [name], files(dir + [name]).value))
  {
    ParentOfStaticResolves(dir, name);
    assert ServedUrl("/../" + name) == "/../" + name;
    assert "/../" + name != CONFIG_ROUTE by {
      assert ("/../" + name)[1] == '.';
    }
    assert STATIC_FOLDER + ("/../" + name) == STATIC_FOLDER + "/../" + name;
  }

  /** The as-written route serves `server.js` itself for `/../server.js`. */
  lemma ServerSourceIsServed(dir: seq<string>, config: map<string, Value>, files: FileSystem)
    requires ServerDir(dir)
    requires files(dir + ["server.js"]).Ok?
    ensures Route(dir, "/../server.js", config, files) ==
            Response(200, None, FileBody(dir + ["server.js"], files(dir + ["server.js"]).value))
  {
    TraversalEscapesStaticFolder(dir, "server.js", config, files);
    assert "/../server.js" == "/../" + "server.js";
  }

  /** The route with the static folder enforced: a url that resolves outside
      `<dir>/www` is treated as a missing file. */
  function RouteConfined(dir: seq<string>, url: string, config: map<string, Value>, files: FileSystem): (r: Response)
    requires ServerDir(dir)
    ensures r.body.FileBody? ==> InStaticFolder(dir, r.body.file)
  {
    IndexFileIsInStaticFolder(dir);
    var served := ServedUrl(url);
    if served == CONFIG_ROUTE
    then Response(200, Some("application/json"), ConfigBody(config))
    else
      var file := ResolvePath(dir, STATIC_FOLDER + served);
      ServeFile(dir, files, if InStaticFolder(dir, file) then file else IndexFile(dir))
  }

  /** The confined route answers every url that stays in the static folder
      as the written one does. */
  lemma RouteConfinedAgreesInside(dir: seq<string>, url: string, config: map<string, Value>, files: FileSystem)
    requires ServerDir(dir)
    requires ServedUrl(url) == CONFIG_ROUTE || InStaticFolder(dir, ResolvePath(dir, STATIC_FOLDER + ServedUrl(url)))
    ensures RouteConfined(dir, url, config, files) == Route(dir, url, config, files)
  {
  }

  /** The confined route does not serve `/www/<name>` for the climbing url
      of `ClimbAboveServerDir`. */
  lemma RouteConfinedRefusesClimb(name: string, config: map<string, Value>, files: FileSystem)
    requires SimpleName(name)
    ensures var r := RouteConfined(["app"], "/../../www/" + name, config, files);
      !(r.body.FileBody? && r.body.file == ["www", name])
  {
    ClimbAboveServerDir(name);
    assert STATIC_FOLDER + ("/../../www/" + name) == STATIC_FOLDER + "/../../www/" + name;
    assert ServerDir(["app"]) by {
      assert SimpleName("app");
    }
  }

  // -----------------------------------------------------------------------
  // The listening port
  // -----------------------------------------------------------------------

  /** `ENV.PORT || PORT` on the merged configuration. */
  function ListenPort(config: map<string, Value>): (r: Value)
    ensures Truthy(Get(config, "PORT")) ==> r == config["PORT"]
    ensures !Truthy(Get(config, "PORT")) ==> r == Num(PORT)
  {
    Or(Get(config, "PORT"), Num(PORT))
  }

  /** The environment moves the port only when the default configuration
      carries a truthy `PORT`; otherwise the server listens on 80. */
  lemma ListenPortFromEnvironment(defaults: map<string, Value>, env: map<string, string>,
                                  parse: string -> Option<Value>)
    ensures var merged := defaults + ParsedEnvOf(defaults, env, parse);
      (!Truthy(Get(defaults, "PORT")) ==> ListenPort(merged) == Num(PORT)) &&
      (Truthy(Get(defaults, "PORT")) && "PORT" in env && Truthy(EnvValue(env["PORT"], parse)) ==>
        ListenPort(merged) == EnvValue(env["PORT"], parse))
  {
    MergedConfigRules(defaults, env, parse);
  }

  /** The start-up message, as written: it names the constant port. */
  function StartupMessage(config: map<string, Value>): string {
    "YourDLT Explorer is running. Listening on port: " + IntToString(PORT)
  }

  /** As written, a configured port of 8080 is listened on while the message
      names port 80. */
  lemma StartupMessageNamesWrongPort()
    ensures var config := map["PORT" := Num(8080)];
      ListenPort(config) == Num(8080) && StartupMessage(config) == "YourDLT Explorer is running. Listening on port: 80"
  {
    assert NatToString(80) == "80" by {
      assert NatToString(8) == "8";
    }
  }

  /** The start-up message naming the port that is listened on. */
  function ListeningMessage(config: map<string, Value>): (m: string)
    ensures m == "YourDLT Explorer is running. Listening on port: " + ToStr(ListenPort(config))
    ensures !Truthy(Get(config, "PORT")) ==> m == StartupMessage(config)
  {
    "YourDLT Explorer is running. Listening on port: " + ToStr(ListenPort(config))
  }
}
