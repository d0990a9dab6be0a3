/** The decision logic of vite.config.ts: mode normalisation, the local and template `.ini` paths and
    the rule that seeds a missing local file from its template, the list of files copied into the
    build, the chunk classifier handed to Rollup, and the path logic of the capacitor resolver plugin.
    The file system is a value: a map from existing paths to their contents, or a set of paths. */
module BuildConfig {
  import opened Wrappers
  import opened Strings

  // ---------------------------------------------------------------------------------------------
  // Mode normalisation (lines 63-64)

  /** The short name the configuration uses for a mode. */
  function ShortModeName(mode: string): (r: string)
    ensures r != "development" && r != "production"
  {
    if mode == "development" then "dev"
    else if mode == "production" then "prod"
    else mode
  }

  /** The two reassignments of `mode`, one after the other. */
  method NormalizeMode(mode: string) returns (m: string)
    ensures mode == "development" ==> m == "dev"
    ensures mode == "production" ==> m == "prod"
    ensures mode != "development" && mode != "production" ==> m == mode
    ensures m == ShortModeName(mode)
  {
    m := mode;
    m := if m == "development" then "dev" else m;
    m := if m == "production" then "prod" else m;
  }

  /** Normalising an already normalised mode changes nothing. */
  lemma ShortModeNameIdempotent(mode: string)
    ensures ShortModeName(ShortModeName(mode)) == ShortModeName(mode)
  {
  }

  // ---------------------------------------------------------------------------------------------
  // The `.ini` files (lines 66-75)

  const LocalIniPrefix := "ini/.webapp."
  const TemplateIniPrefix := "ini/templates/.webapp."
  const IniSuffix := ".ini"

  /** `ini/.webapp.<mode>.ini` */
  function LocalIniPath(mode: string): string {
    LocalIniPrefix + mode + IniSuffix
  }

  /** `ini/templates/.webapp.<mode>.ini` */
  function TemplateIniPath(mode: string): string {
    TemplateIniPrefix + mode + IniSuffix
  }

  /** Different modes have different local files, and different template files. */
  lemma IniPathsDetermineMode(m1: string, m2: string)
    ensures LocalIniPath(m1) == LocalIniPath(m2) ==> m1 == m2
    ensures TemplateIniPath(m1) == TemplateIniPath(m2) ==> m1 == m2
  {
    if LocalIniPath(m1) == LocalIniPath(m2) {
      assert |m1| == |m2|;
      assert m1 == LocalIniPath(m1)[|LocalIniPrefix|..|LocalIniPrefix| + |m1|];
    }
    if TemplateIniPath(m1) == TemplateIniPath(m2) {
      assert |m1| == |m2|;
      assert m1 == TemplateIniPath(m1)[|TemplateIniPrefix|..|TemplateIniPrefix| + |m1|];
    }
  }

  /** No local file is ever the template of any mode, so seeding never copies a file onto itself. */
  lemma LocalIsNeverATemplate(m1: string, m2: string)
    ensures LocalIniPath(m1) != TemplateIniPath(m2)
  {
    assert LocalIniPath(m1)[4] == '.' && TemplateIniPath(m2)[4] == 't';
  }

  /** The file system after `if (!existsSync(local) && existsSync(template)) copyFileSync(template, local)`. */
  function SeedLocalIni(files: map<string, string>, mode: string): (r: map<string, string>)
    ensures LocalIniPath(mode) in r <==> LocalIniPath(mode) in files || TemplateIniPath(mode) in files
    ensures LocalIniPath(mode) in files ==> r == files
    ensures LocalIniPath(mode) !in files && TemplateIniPath(mode) in files ==>
      r[LocalIniPath(mode)] == files[TemplateIniPath(mode)]
    ensures forall p :: p != LocalIniPath(mode) ==> (p in r <==> p in files)
    ensures forall p :: p != LocalIniPath(mode) && p in files ==> r[p] == files[p]
  {
    var local, template := LocalIniPath(mode), TemplateIniPath(mode);
    if local !in files && template in files then files[local := files[template]] else files
  }

  /** Seeding twice is seeding once. */
  lemma SeedLocalIniIdempotent(files: map<string, string>, mode: string)
    ensures SeedLocalIni(SeedLocalIni(files, mode), mode) == SeedLocalIni(files, mode)
  {
  }

  // ---------------------------------------------------------------------------------------------
  // Copy targets (lines 83-97)

  datatype CopyTarget = CopyTarget(src: string, dest: string, rename: Option<string>)

  /** The local `.ini`, copied to the output root as `.webapp.ini`. */
  function IniTarget(mode: string): CopyTarget {
    CopyTarget(LocalIniPath(mode), "", Some(".webapp.ini"))
  }

  /** The electronic programme guide test data, copied to `epg`. */
  const EpgTarget := CopyTarget("test/epg/*", "epg", None)

  /** `fileCopyTargets`: starts with the `.ini` target and pushes the test data outside `prod`. */
  method FileCopyTargets(mode: string) returns (targets: seq<CopyTarget>)
    ensures |targets| >= 1 && targets[0] == IniTarget(mode)
    ensures EpgTarget in targets <==> mode != "prod"
    ensures |targets| == if mode == "prod" then 1 else 2
  {
    targets := [IniTarget(mode)];
    if mode != "prod" {
      targets := targets + [EpgTarget];
    }
  }

  /** What the configuration function derives from the mode, the command and the file system. */
  datatype BuildSettings = BuildSettings(
    mode: string,
    files: map<string, string>,
    copyTargets: seq<CopyTarget>,
    forcesProductionEnv: bool,
    emitLintErrors: bool)

  /** The configuration function of lines 60-103: normalise the mode, seed the local `.ini`,
      force `NODE_ENV=production` for `build`, collect the copy targets, and decide whether lint
      errors fail the build, by the rule as written at line 103. */
  method Configure(rawMode: string, command: string, files: map<string, string>) returns (s: BuildSettings)
    ensures s.mode == ShortModeName(rawMode)
    ensures s.files == SeedLocalIni(files, s.mode)
    ensures s.forcesProductionEnv <==> command == "build"
    ensures |s.copyTargets| >= 1 && s.copyTargets[0] == IniTarget(s.mode)
    ensures s.copyTargets[0].src in s.files <==> LocalIniPath(s.mode) in files || TemplateIniPath(s.mode) in files
    ensures EpgTarget in s.copyTargets <==> rawMode != "production" && rawMode != "prod"
    ensures s.copyTargets == if s.mode == "prod" then [IniTarget(s.mode)] else [IniTarget(s.mode), EpgTarget]
    ensures s.emitLintErrors <==> rawMode == "demo" || rawMode == "preview"
  {
    var mode := NormalizeMode(rawMode);
    var seeded := SeedLocalIni(files, mode);
    var targets := FileCopyTargets(mode);
    ProductionNeverEmitsLintErrors(rawMode);
    s := BuildSettings(mode, seeded, targets, command == "build", EmitLintErrorsAsWritten(mode));
  }

  // ---------------------------------------------------------------------------------------------
  // Lint errors (line 103)

  // As written: the comparison with 'production' runs after 'production' became 'prod'.
  function EmitLintErrorsAsWritten(mode: string): bool {
    mode == "production" || mode == "demo" || mode == "preview"
  }

  /** The lint plugin fails the build only for `demo` and `preview`: a production build never does. */
  lemma ProductionNeverEmitsLintErrors(rawMode: string)
    ensures EmitLintErrorsAsWritten(ShortModeName(rawMode)) <==> rawMode == "demo" || rawMode == "preview"
    ensures !EmitLintErrorsAsWritten(ShortModeName("production"))
  {
  }

  /** The rule as evidently intended: production builds, `demo` and `preview` fail on lint errors. */
  function EmitLintErrors(mode: string): bool {
    mode == "prod" || mode == "demo" || mode == "preview"
  }

  /** With the corrected rule, a production build fails on lint errors, whichever name it came in by. */
  lemma ProductionEmitsLintErrors(rawMode: string)
    ensures EmitLintErrors(ShortModeName(rawMode)) <==>
      rawMode in {"production", "prod", "demo", "preview"}
  {
  }

  // ---------------------------------------------------------------------------------------------
  // Chunks (lines 142-160)

  datatype Chunk = ReactChunk | InplayerChunk | VendorChunk | IndexChunk

  const NodeModules := "/node_modules/"
  const ReactMarkers := ["/node_modules/react-dom/", "/node_modules/scheduler/", "/node_modules/object-assign/", "/node_modules/react/"]
  const InplayerMarker := "/node_modules/@inplayer"

  predicate IsReactModule(id: string) {
    exists k | 0 <= k < |ReactMarkers| :: Contains(id, ReactMarkers[k])
  }

  /** `manualChunks`: the first matching rule wins. */
  function ManualChunk(id: string): (c: Chunk)
    ensures c == ReactChunk <==> IsReactModule(id)
    ensures c == InplayerChunk <==> !IsReactModule(id) && Contains(id, InplayerMarker)
    ensures c == VendorChunk <==> !IsReactModule(id) && !Contains(id, InplayerMarker) && Contains(id, NodeModules)
    ensures c == IndexChunk <==> !Contains(id, NodeModules)
  {
    if IsReactModule(id) then
      ReactModuleInNodeModules(id);
      ReactChunk
    else if Contains(id, InplayerMarker) then
      MarkerInNodeModules(id, InplayerMarker);
      InplayerChunk
    else if Contains(id, NodeModules) then
      VendorChunk
    else
      IndexChunk
  }

  /** Every React package lives under `/node_modules/`. */
  lemma ReactModuleInNodeModules(id: string)
    requires IsReactModule(id)
    ensures Contains(id, NodeModules)
  {
    var k :| 0 <= k < |ReactMarkers| && Contains(id, ReactMarkers[k]);
    MarkerInNodeModules(id, ReactMarkers[k]);
  }

  /** Every marker of a `node_modules` package lies inside `/node_modules/`. */
  lemma MarkerInNodeModules(id: string, marker: string)
    requires marker == InplayerMarker || marker in ReactMarkers
    requires Contains(id, marker)
    ensures Contains(id, NodeModules)
  {
    assert StartsWith(marker, NodeModules);
    StartsWithContains(marker, NodeModules);
    ContainsTransitive(id, marker, NodeModules);
  }

  // ---------------------------------------------------------------------------------------------
  // The capacitor resolver (lines 18-56)

  /** `specifier.split('?')[0]`: the specifier without its query. */
  function CleanSpecifier(specifier: string): (r: string)
    ensures '?' !in r
    ensures StartsWith(specifier, r)
    ensures |r| < |specifier| ==> specifier[|r|] == '?'
  {
    if |specifier| == 0 || specifier[0] == '?' then ""
    else [specifier[0]] + CleanSpecifier(specifier[1..])
  }

  const ModuleScss := ".module.scss"
  const CapacitorModuleScss := ".capacitor.module.scss"
  const Scss := ".scss"
  const CapacitorScss := ".capacitor.scss"

  /** `scssCapacitorPath`: the test for `.module.scss` looks at the whole specifier, the
      replacement at the specifier without its query. */
  function ScssCapacitorPath(specifier: string): string {
    if Contains(specifier, ModuleScss) then ReplaceFirst(CleanSpecifier(specifier), ModuleScss, CapacitorModuleScss)
    else ReplaceFirst(CleanSpecifier(specifier), Scss, CapacitorScss)
  }

  /** A pattern none of whose proper prefixes is also a suffix: an occurrence of it cannot overlap
      the end of a string it is appended to. */
  predicate Unbordered(p: string) {
    forall k | 0 < k < |p| :: p[..k] != p[|p| - k..]
  }

  lemma ScssPatternsUnbordered()
    ensures Unbordered(ModuleScss) && Unbordered(Scss)
  {
    forall k | 0 < k < |ModuleScss| ensures ModuleScss[..k] != ModuleScss[|ModuleScss| - k..] {
      assert ModuleScss[..k][0] == '.' && ModuleScss[|ModuleScss| - k..][k - 1] == 's';
    }
    forall k | 0 < k < |Scss| ensures Scss[..k] != Scss[|Scss| - k..] {
      assert Scss[..k][0] == '.' && Scss[|Scss| - k..][k - 1] == 's';
    }
  }

  /** The first occurrence of an unbordered pattern in `base + p` is the appended one when `base`
      does not contain `p`. */
  lemma FirstOccurrenceAtEnd(base: string, p: string)
    requires Unbordered(p) && |p| > 0 && !Contains(base, p)
    ensures IndexOf(base + p, p) == Some(|base|)
  {
    var s := base + p;
    assert OccursAt(s, p, |base|);
    forall j: nat | j < |base| ensures !OccursAt(s, p, j) {
      if j + |p| <= |base| {
        assert s[j..j + |p|] == base[j..j + |p|];
        assert !OccursAt(base, p, j);
      } else {
        var k := j + |p| - |base|;
        assert s[j..j + |p|][|p| - k..] == p[..k];
        assert p[|p| - k..] != p[..k];
      }
    }
  }

  /** For `<base>.module.scss` with an optional query, the variant is `<base>.capacitor.module.scss`. */
  lemma ModuleScssVariant(base: string, query: string)
    requires '?' !in base && !Contains(base, ModuleScss)
    requires query == [] || query[0] == '?'
    ensures ScssCapacitorPath(base + ModuleScss + query) == base + CapacitorModuleScss
  {
    var spec := base + ModuleScss + query;
    ScssPatternsUnbordered();
    assert CleanSpecifier(spec) == base + ModuleScss by { CleanSpecifierOfQuery(base + ModuleScss, query); }
    assert OccursAt(spec, ModuleScss, |base|);
    FirstOccurrenceAtEnd(base, ModuleScss);
    assert (base + ModuleScss)[|base| + |ModuleScss|..] == [];
  }

  /** For `<base>.scss` with an optional query that does not mention `.module.scss`, the variant is
      `<base>.capacitor.scss`. */
  lemma ScssVariant(base: string, query: string)
    requires '?' !in base && !Contains(base, Scss)
    requires query == [] || query[0] == '?'
    requires !Contains(base + Scss + query, ModuleScss)
    ensures ScssCapacitorPath(base + Scss + query) == base + CapacitorScss
  {
    ScssPatternsUnbordered();
    CleanSpecifierOfQuery(base + Scss, query);
    FirstOccurrenceAtEnd(base, Scss);
    assert (base + Scss)[|base| + |Scss|..] == [];
  }

  /** The specifier without its query is the part before the first `?`. */
  lemma {:induction false} CleanSpecifierOfQuery(path: string, query: string)
    requires '?' !in path
    requires query == [] || query[0] == '?'
    ensures CleanSpecifier(path + query) == path
  {
    if path == [] {
      assert path + query == query;
    } else {
      assert (path + query)[1..] == path[1..] + query;
      CleanSpecifierOfQuery(path[1..], query);
      assert path == [path[0]] + path[1..];
    }
  }

  /** A query that mentions `.module.scss` sends a plain stylesheet down the module branch, where
      nothing is replaced: the variant path is the stylesheet itself. */
  lemma QueryMentioningModuleKeepsPath(path: string, query: string)
    requires '?' !in path && !Contains(path, ModuleScss)
    requires |query| > 0 && query[0] == '?' && Contains(query, ModuleScss)
    ensures ScssCapacitorPath(path + query) == path
  {
    CleanSpecifierOfQuery(path, query);
    ContainsInContext(path, query, "", ModuleScss);
    assert path + query + "" == path + query;
  }

  /** `path.dirname`: everything before the last `/`, or `.` without one. */
  function Dirname(path: string): string {
    if |path| == 0 then "."
    else if path[|path| - 1] == '/' then path[..|path| - 1]
    else Dirname(path[..|path| - 1])
  }

  /** `path.join` of a directory and a relative path. */
  function JoinPath(dir: string, rel: string): string {
    dir + "/" + rel
  }

  /** Where the stylesheet variant is looked for. */
  function ScssAbsolutePath(specifier: string, importer: string, srcPath: string): string {
    var variant := ScssCapacitorPath(specifier);
    if StartsWith(variant, srcPath) then variant else JoinPath(Dirname(importer), variant)
  }

  /** What the resolver hook returns: a path, `null`, or nothing (`undefined`). */
  datatype Resolution = ResolvedTo(path: string) | ResolvedNull | Unresolved

  /** JavaScript truthiness of the optional importer. */
  predicate HasImporter(importer: Option<string>) {
    importer.Some? && importer.value != ""
  }

  const Extensions := ["ts", "tsx"]

  /** The `for` loop over `extensions`: the first `<capacitorId>.<ext>` that exists. */
  method ProbeCapacitorVariant(capacitorId: string, files: set<string>) returns (r: Option<string>)
    ensures r.Some? ==> r.value in files
    ensures r.Some? ==> exists k | 0 <= k < |Extensions| ::
      r.value == capacitorId + "." + Extensions[k] &&
      forall j | 0 <= j < k :: capacitorId + "." + Extensions[j] !in files
    ensures r.None? <==> forall k | 0 <= k < |Extensions| :: capacitorId + "." + Extensions[k] !in files
  {
    for i := 0 to |Extensions|
      invariant forall j | 0 <= j < i :: capacitorId + "." + Extensions[j] !in files
    {
      var candidate := capacitorId + "." + Extensions[i];
      if candidate in files {
        return Some(candidate);
      }
    }
    return None;
  }

  /** `resolveId`: a stylesheet with an importer resolves to its variant when that exists and to
      `null` otherwise; a module under `src`, when the importer is not its own variant, resolves to
      the first existing `.capacitor.ts` / `.capacitor.tsx`, and to nothing otherwise. */
  method ResolveId(specifier: string, importer: Option<string>, srcPath: string, files: set<string>)
    returns (r: Resolution)
    ensures EndsWith(CleanSpecifier(specifier), Scss) && HasImporter(importer) ==>
      var p := ScssAbsolutePath(specifier, importer.value, srcPath);
      r == if p in files then ResolvedTo(p) else ResolvedNull
    ensures !(EndsWith(CleanSpecifier(specifier), Scss) && HasImporter(importer)) ==>
      var id := specifier + ".capacitor";
      if StartsWith(specifier, srcPath) && importer != Some(id) then
        && (id + ".ts" in files ==> r == ResolvedTo(id + ".ts"))
        && (id + ".ts" !in files && id + ".tsx" in files ==> r == ResolvedTo(id + ".tsx"))
        && (id + ".ts" !in files && id + ".tsx" !in files ==> r == Unresolved)
      else r == Unresolved
  {
    var capacitorId := specifier + ".capacitor";
    var cleanSpecifier := CleanSpecifier(specifier);
    if EndsWith(cleanSpecifier, Scss) && HasImporter(importer) {
      var absolute := ScssAbsolutePath(specifier, importer.value, srcPath);
      if absolute in files {
        return ResolvedTo(absolute);
      }
      return ResolvedNull;
    }
    if StartsWith(specifier, srcPath) && importer != Some(capacitorId) {
      var found := ProbeCapacitorVariant(capacitorId, files);
      assert capacitorId + "." + Extensions[0] == capacitorId + ".ts";
      assert capacitorId + "." + Extensions[1] == capacitorId + ".tsx";
      if found.Some? {
        return ResolvedTo(found.value);
      }
    }
    return Unresolved;
  }
}
