/**
 * Normalisation of the command-line option bag (src/cli/normalize-cli-options.js).
 *
 * The bag is an immutable map from option name to value; every stage builds
 * a new bag. The filesystem probe, the configuration loader and
 * `path.isAbsolute` are the environment `Env`; the constants of the
 * defaults module are the record `Defaults`.
 */
module CliOptions {
  import opened Wrappers
  import opened JsValues

  type Bag = map<string, Value>

  datatype Error =
    | FileNotFound(path: string)     // a rules or baseline file that cannot be opened
    | NotAString(option: string)     // an option the source calls a string method on
    | LoadFailed(message: string)    // whatever the configuration loader reports

  datatype Result<T> = Ok(value: T) | Err(error: Error)

  /** The constants of the defaults module. */
  datatype Defaults = Defaults(
    outputTo: string,
    outputType: string,
    rulesFileNameSearch: seq<string>,
    defaultConfigFileName: string,
    defaultBaselineFileName: string,
    webpackConfig: string,
    typescriptConfig: string,
    babelConfig: string,
    oldDefaultRulesFileName: string)

  /** The outside world: the readable paths, `path.isAbsolute`, and the
      configuration loader, whose failures are passed on unchanged. */
  datatype Env = Env(readable: set<string>, isAbsolute: string -> bool, load: string -> Result<RuleSet>)

  const KnownCliOptions: seq<string> := [
    "babelConfig", "baseDir", "collapse", "config", "doNotFollow", "exclude",
    "focus", "help", "ignoreKnown", "includeOnly", "info", "init", "maxDepth",
    "metrics", "moduleSystems", "outputTo", "outputType", "prefix",
    "preserveSymlinks", "progress", "tsPreCompilationDeps", "tsConfig",
    "validate", "version", "webpackConfig"
  ]

  const RuleSetKey := "ruleSet"
  const FileNameKey := "fileName"
  const CliFeedback := "cli-feedback"

  // ---------------------------------------------------------------------
  // The option whitelist
  // ---------------------------------------------------------------------

  /** `getOptionValue(default)(value)`: a string value is taken as is,
      anything else yields the default. */
  function OptionValue(dflt: string, v: Value): (r: string)
    ensures v.Str? ==> r == v.s
    ensures !v.Str? ==> r == dflt
  {
    if v.Str? then v.s else dflt
  }

  /** `determineRulesFileName`: `getOptionValue` with the old default
      rules file name. */
  function DetermineRulesFileName(d: Defaults, v: Value): (r: string)
    ensures v.Str? ==> r == v.s
    ensures !v.Str? ==> r == d.oldDefaultRulesFileName
  {
    OptionValue(d.oldDefaultRulesFileName, v)
  }

  /** `isKnownCLIOption(known)(key)`: `known.includes(key)`. */
  predicate IsKnownCliOption(known: seq<string>, key: string)
    ensures IsKnownCliOption(known, key) <==> exists i :: 0 <= i < |known| && known[i] == key
  {
    key in known
  }

  /** `ejectNonCLIOptions`: exactly the known keys of the input survive,
      with their values unchanged. */
  function EjectNonCliOptions(opts: Bag, known: seq<string>): (r: Bag)
    ensures forall k :: k in r <==> k in opts && IsKnownCliOption(known, k)
    ensures forall k :: k in r ==> r[k] == opts[k]
  {
    map k | k in opts && IsKnownCliOption(known, k) :: opts[k]
  }

  /** Ejecting twice keeps the same keys as ejecting once. */
  lemma EjectIdempotent(opts: Bag, known: seq<string>)
    ensures EjectNonCliOptions(EjectNonCliOptions(opts, known), known) == EjectNonCliOptions(opts, known)
  {
  }

  /** The first stage of `normalizeOptions`: the two output defaults,
      overridden by whatever the caller supplied. */
  function SeedOutputDefaults(bag: Bag, d: Defaults): (r: Bag)
    ensures "outputTo" in r && r["outputTo"] == (if "outputTo" in bag then bag["outputTo"] else Str(d.outputTo))
    ensures "outputType" in r && r["outputType"] == (if "outputType" in bag then bag["outputType"] else Str(d.outputType))
    ensures forall k :: k != "outputTo" && k != "outputType" ==> (k in r <==> k in bag)
    ensures forall k :: k in bag ==> k in r && r[k] == bag[k]
  {
    map["outputTo" := Str(d.outputTo), "outputType" := Str(d.outputType)] + bag
  }

  /** `moduleSystems.split(",").map(trim)`: one entry per comma-separated
      segment, in order, each trimmed. */
  function SplitModuleSystems(s: string): (r: seq<string>)
    ensures |r| == Count(s, ',') + 1
    ensures forall i :: 0 <= i < |r| ==> r[i] == Trim(Split(s, ',')[i])
    ensures forall i :: 0 <= i < |r| ==> ',' !in r[i]
  {
    var parts := Split(s, ',');
    seq(|parts|, i requires 0 <= i < |parts| => Trim(parts[i]))
  }

  // ---------------------------------------------------------------------
  // The rules file
  // ---------------------------------------------------------------------

  /** `validateAndGetCustomRulesFileName`: an explicit rules file must be
      readable, and an error names exactly that path otherwise. */
  function CustomRulesFileName(path: string, env: Env): (r: Result<string>)
    ensures r.Ok? <==> path in env.readable
    ensures r.Ok? ==> r.value == path
    ensures r.Err? ==> r.error == FileNotFound(path)
  {
    if path in env.readable then Ok(path) else Err(FileNotFound(path))
  }

  /** `candidates.find(fileExists)`. */
  function FirstReadable(candidates: seq<string>, readable: set<string>): (r: Option<string>)
    ensures r.Some? ==> r.value in candidates && r.value in readable
    ensures r.None? <==> forall i :: 0 <= i < |candidates| ==> candidates[i] !in readable
  {
    if candidates == [] then None
    else if candidates[0] in readable then Some(candidates[0])
    else FirstReadable(candidates[1..], readable)
  }

  /** The search is first-match: the result is the readable candidate that
      no readable candidate precedes. */
  lemma {:induction false} FirstReadableIsFirstMatch(candidates: seq<string>, readable: set<string>, i: nat)
    requires i < |candidates| && candidates[i] in readable
    requires forall j :: 0 <= j < i ==> candidates[j] !in readable
    ensures FirstReadable(candidates, readable) == Some(candidates[i])
  {
    if i > 0 {
      FirstReadableIsFirstMatch(candidates[1..], readable, i - 1);
    }
  }

  /** Conversely, whatever the search finds sits at an index that no
      readable candidate precedes. */
  lemma {:induction false} FirstReadableAt(candidates: seq<string>, readable: set<string>) returns (i: nat)
    requires FirstReadable(candidates, readable).Some?
    ensures i < |candidates| && candidates[i] == FirstReadable(candidates, readable).value
    ensures forall j :: 0 <= j < i ==> candidates[j] !in readable
  {
    if candidates[0] in readable {
      i := 0;
    } else {
      var k := FirstReadableAt(candidates[1..], readable);
      i := k + 1;
    }
  }

  /** `validateAndGetDefaultRulesFileName`: the first readable entry of the
      search list, or an error naming the default configuration file. */
  function DefaultRulesFileName(d: Defaults, env: Env): (r: Result<string>)
    ensures r.Ok? ==> r.value in d.rulesFileNameSearch && r.value in env.readable
    ensures r.Ok? ==> FirstReadable(d.rulesFileNameSearch, env.readable) == Some(r.value)
    ensures r.Err? <==> forall i :: 0 <= i < |d.rulesFileNameSearch| ==> d.rulesFileNameSearch[i] !in env.readable
    ensures r.Err? ==> r.error == FileNotFound(d.defaultConfigFileName + "(on)")
  {
    match FirstReadable(d.rulesFileNameSearch, env.readable)
    case Some(f) => Ok(f)
    case None => Err(FileNotFound(d.defaultConfigFileName + "(on)"))
  }

  /** `validateAndNormalizeRulesFileName`: a string names the rules file
      itself; any other value asks for the default search. */
  function RulesFileName(validate: Value, d: Defaults, env: Env): (r: Result<string>)
    ensures validate.Str? ==> r == CustomRulesFileName(validate.s, env)
    ensures !validate.Str? ==> r == DefaultRulesFileName(d, env)
  {
    if validate.Str? then CustomRulesFileName(validate.s, env) else DefaultRulesFileName(d, env)
  }

  /** The path handed to the loader: absolute paths as they are, relative
      ones prefixed with `./`. */
  function LoadPath(rulesFile: string, env: Env): string
  {
    if env.isAbsolute(rulesFile) then rulesFile else "./" + rulesFile
  }

  /** `normalizeValidationOption`: without `validate` the result is exactly
      `{validate: false}`; with it, the resolved rules file, the rule set
      loaded from it and `validate: true`, or the first error met. */
  function NormalizeValidationOption(bag: Bag, d: Defaults, env: Env): (r: Result<Bag>)
    ensures "validate" !in bag ==> r == Ok(map["validate" := Bool(false)])
    ensures "validate" in bag && RulesFileName(bag["validate"], d, env).Err? ==>
              r == Err(RulesFileName(bag["validate"], d, env).error)
    ensures "validate" in bag && RulesFileName(bag["validate"], d, env).Ok? ==>
              var f := RulesFileName(bag["validate"], d, env).value;
              var loaded := env.load(LoadPath(f, env));
              && (loaded.Err? ==> r == Err(loaded.error))
              && (loaded.Ok? ==> r == Ok(map["rulesFile" := Str(f), "ruleSet" := Rules(loaded.value), "validate" := Bool(true)]))
  {
    if "validate" in bag then
      match RulesFileName(bag["validate"], d, env)
      case Err(e) => Err(e)
      case Ok(rulesFile) =>
        match env.load(LoadPath(rulesFile, env))
        case Err(e) => Err(e)
        case Ok(ruleSet) => Ok(map["rulesFile" := Str(rulesFile), "ruleSet" := Rules(ruleSet), "validate" := Bool(true)])
    else
      Ok(map["validate" := Bool(false)])
  }

  /** With a string `validate` naming a readable file, that file is the
      rules file; naming an unreadable one, the error names that path. */
  lemma ExplicitRulesFile(bag: Bag, d: Defaults, env: Env, path: string)
    requires "validate" in bag && bag["validate"] == Str(path)
    ensures path !in env.readable ==> NormalizeValidationOption(bag, d, env) == Err(FileNotFound(path))
    ensures NormalizeValidationOption(bag, d, env).Ok? ==>
              path in env.readable && NormalizeValidationOption(bag, d, env).value["rulesFile"] == Str(path)
  {
  }

  /** With a non-string `validate`, the rules file is the first readable
      entry of the search list and none before it is readable. */
  lemma SearchedRulesFile(bag: Bag, d: Defaults, env: Env)
    requires "validate" in bag && !bag["validate"].Str?
    requires NormalizeValidationOption(bag, d, env).Ok?
    ensures exists i :: 0 <= i < |d.rulesFileNameSearch| && d.rulesFileNameSearch[i] in env.readable
              && NormalizeValidationOption(bag, d, env).value["rulesFile"] == Str(d.rulesFileNameSearch[i])
              && forall j :: 0 <= j < i ==> d.rulesFileNameSearch[j] !in env.readable
  {
    var i := FirstReadableAt(d.rulesFileNameSearch, env.readable);
  }

  // ---------------------------------------------------------------------
  // Known violations and progress
  // ---------------------------------------------------------------------

  /** `validateAndGetKnownViolationsFileName`: the baseline file is the
      option's string, or the default baseline name; it must be readable. */
  function KnownViolationsFileName(ignoreKnown: Value, d: Defaults, env: Env): (r: Result<string>)
    ensures var f := OptionValue(d.defaultBaselineFileName, ignoreKnown);
            && (r.Ok? <==> f in env.readable)
            && (r.Ok? ==> r.value == f)
            && (r.Err? ==> r.error == FileNotFound(f))
  {
    var f := if ignoreKnown.Str? then ignoreKnown.s else d.defaultBaselineFileName;
    if f in env.readable then Ok(f) else Err(FileNotFound(f))
  }

  /** `normalizeKnownViolationsOption`: nothing without `ignoreKnown`;
      otherwise `{knownViolationsFile: f}` exactly when `f` is readable, and
      an error naming `f` when it is not. */
  function NormalizeKnownViolationsOption(bag: Bag, d: Defaults, env: Env): (r: Result<Bag>)
    ensures "ignoreKnown" !in bag ==> r == Ok(map[])
    ensures "ignoreKnown" in bag ==>
              var f := OptionValue(d.defaultBaselineFileName, bag["ignoreKnown"]);
              && (r.Ok? <==> f in env.readable)
              && (r.Ok? ==> r.value == map["knownViolationsFile" := Str(f)])
              && (r.Err? ==> r.error == FileNotFound(f))
  {
    if "ignoreKnown" in bag then
      match KnownViolationsFileName(bag["ignoreKnown"], d, env)
      case Ok(f) => Ok(map["knownViolationsFile" := Str(f)])
      case Err(e) => Err(e)
    else
      Ok(map[])
  }

  /** `normalizeProgress`: at most a `progress` key, present exactly when
      the option is present and truthy; `true` becomes "cli-feedback" and
      any other truthy value passes through unchanged. */
  function NormalizeProgress(bag: Bag): (r: Bag)
    ensures r.Keys <= {"progress"}
    ensures "progress" in r <==> "progress" in bag && Truthy(bag["progress"])
    ensures "progress" in r ==> r["progress"] == (if bag["progress"] == Bool(true) then Str(CliFeedback) else bag["progress"])
  {
    var progress := if "progress" in bag then Some(bag["progress"]) else None;
    var progress := if progress == Some(Bool(true)) then Some(Str(CliFeedback)) else progress;
    if progress.Some? && Truthy(progress.value) then map["progress" := progress.value] else map[]
  }

  /** Merging the progress result a second time changes nothing: the
      canonical value is a fixed point. */
  lemma ProgressIdempotent(bag: Bag)
    ensures var once := bag + NormalizeProgress(bag);
            once + NormalizeProgress(once) == once
  {
  }

  // ---------------------------------------------------------------------
  // Wrapper configurations: `ruleSet.options.<name>.fileName`
  // ---------------------------------------------------------------------

  /** The rule set under `ruleSet`, or the empty object `_set` creates when
      there is none (a primitive in its place is replaced too). */
  function RuleSetOf(bag: Bag): RuleSet
  {
    if RuleSetKey in bag && bag[RuleSetKey].Rules? then bag[RuleSetKey].ruleSet else RuleSet(map[], map[])
  }

  /** `_get(bag, "ruleSet.options.<name>")`. */
  function WrapperEntry(bag: Bag, name: string): Option<map<string, Value>>
  {
    if RuleSetKey in bag && bag[RuleSetKey].Rules? && name in bag[RuleSetKey].ruleSet.options
    then Some(bag[RuleSetKey].ruleSet.options[name])
    else None
  }

  /** `_get(bag, "ruleSet.options.<name>.fileName")`. */
  function WrapperFileName(bag: Bag, name: string): Option<Value>
  {
    match WrapperEntry(bag, name)
    case Some(entry) => if FileNameKey in entry then Some(entry[FileNameKey]) else None
    case None => None
  }

  /** `_set(bag, "ruleSet.options.<name>.fileName", v)`: creates the rule
      set and the entry when missing, and leaves everything else alone. */
  function SetWrapperFileName(bag: Bag, name: string, v: Value): (r: Bag)
    ensures WrapperFileName(r, name) == Some(v)
    ensures forall k :: k != RuleSetKey ==> (k in r <==> k in bag) && (k in r ==> r[k] == bag[k])
    ensures forall n :: n != name ==> WrapperEntry(r, n) == WrapperEntry(bag, n)
    ensures forall f :: f != FileNameKey && WrapperEntry(bag, name).Some? && f in WrapperEntry(bag, name).value ==>
              f in WrapperEntry(r, name).value && WrapperEntry(r, name).value[f] == WrapperEntry(bag, name).value[f]
    ensures WrapperEntry(r, name).Some? ==>
              WrapperEntry(r, name).value.Keys <= {FileNameKey} + (if WrapperEntry(bag, name).Some? then WrapperEntry(bag, name).value.Keys else {})
    ensures RuleSetOf(r).rules == RuleSetOf(bag).rules
  {
    var rs := RuleSetOf(bag);
    var entry := if name in rs.options then rs.options[name] else map[];
    bag[RuleSetKey := Rules(rs.(options := rs.options[name := entry[FileNameKey := v]]))]
  }

  /** Setting the same `fileName` twice keeps the second value only. */
  lemma SetWrapperFileNameTwice(bag: Bag, name: string, v: Value, w: Value)
    ensures SetWrapperFileName(SetWrapperFileName(bag, name, v), name, w) == SetWrapperFileName(bag, name, w)
  {
    var rs := RuleSetOf(bag);
    var entry := if name in rs.options then rs.options[name] else map[];
    assert entry[FileNameKey := v][FileNameKey := w] == entry[FileNameKey := w];
    assert rs.options[name := entry[FileNameKey := v]][name := entry[FileNameKey := w]] == rs.options[name := entry[FileNameKey := w]];
  }

  /** Deleting the shorthand after `_set` is the same as deleting it before,
      since the shorthand is not `ruleSet`. */
  lemma SetWrapperFileNameThenDelete(bag: Bag, name: string, v: Value)
    requires name != RuleSetKey
    ensures SetWrapperFileName(bag, name, v) - {name} == SetWrapperFileName(bag - {name}, name, v)
  {
    assert RuleSetOf(bag - {name}) == RuleSetOf(bag);
  }

  /** The `fileName` a wrapper shorthand value leads to. */
  function ShorthandFileName(v: Value, dflt: string): Value
  {
    if v.Str? && v.s != "" then v else Str(dflt)
  }

  /** The `fileName` a wrapper entry ends up with: the shorthand when it is
      a non-empty string, the entry's own truthy `fileName` when there is no
      shorthand, and the default in every other case. */
  function ResolvedWrapperFileName(bag: Bag, name: string, dflt: string): Value
  {
    if name in bag then
      ShorthandFileName(bag[name], dflt)
    else if WrapperFileName(bag, name).Some? && Truthy(WrapperFileName(bag, name).value) then
      WrapperFileName(bag, name).value
    else
      Str(dflt)
  }

  /** What `normalizeConfigFileName(bag, name, dflt)` produces, stated as a
      whole: the shorthand is gone, the nested `fileName` is resolved, and
      nothing else changes. */
  function ConfigFileNameNormalized(bag: Bag, name: string, dflt: string): (r: Bag)
    requires name != RuleSetKey
    ensures name !in r
    ensures name in bag && bag[name].Str? && bag[name].s != "" ==> WrapperFileName(r, name) == Some(bag[name])
    ensures name in bag && !(bag[name].Str? && bag[name].s != "") ==> WrapperFileName(r, name) == Some(Str(dflt))
    ensures name !in bag && WrapperEntry(bag, name).Some? && !(WrapperFileName(bag, name).Some? && Truthy(WrapperFileName(bag, name).value)) ==>
              WrapperFileName(r, name) == Some(Str(dflt))
    ensures name !in bag && (WrapperEntry(bag, name).None? || (WrapperFileName(bag, name).Some? && Truthy(WrapperFileName(bag, name).value))) ==>
              r == bag
    ensures forall k :: k != name && k != RuleSetKey ==> (k in r <==> k in bag) && (k in r ==> r[k] == bag[k])
    ensures forall n :: n != name ==> WrapperEntry(r, n) == WrapperEntry(bag, n)
    ensures forall f :: f != FileNameKey && WrapperEntry(bag, name).Some? && f in WrapperEntry(bag, name).value ==>
              f in WrapperEntry(r, name).value && WrapperEntry(r, name).value[f] == WrapperEntry(bag, name).value[f]
    ensures WrapperEntry(r, name).Some? ==>
              WrapperEntry(r, name).value.Keys <= {FileNameKey} + (if WrapperEntry(bag, name).Some? then WrapperEntry(bag, name).value.Keys else {})
    ensures RuleSetOf(r).rules == RuleSetOf(bag).rules
    ensures RuleSetKey in r <==> RuleSetKey in bag || name in bag
    ensures RuleSetKey in bag && bag[RuleSetKey].Rules? ==> r[RuleSetKey].Rules?
  {
    if name in bag || WrapperEntry(bag, name).Some? then
      var r := SetWrapperFileName(bag - {name}, name, ResolvedWrapperFileName(bag, name, dflt));
      if name !in bag && WrapperFileName(bag, name).Some? && Truthy(WrapperFileName(bag, name).value) then
        var rs := bag[RuleSetKey].ruleSet;
        assert rs.options[name][FileNameKey := rs.options[name][FileNameKey]] == rs.options[name];
        assert rs.options[name := rs.options[name]] == rs.options;
        assert r == bag;
        r
      else
        r
    else
      bag
  }

  /** `normalizeConfigFileName`: clone the bag, move the shorthand into the
      nested `fileName` and delete it, then give an entry that still lacks
      a truthy `fileName` the default. */
  method NormalizeConfigFileName(bag: Bag, name: string, dflt: string) returns (r: Bag)
    requires name != RuleSetKey
    ensures r == ConfigFileNameNormalized(bag, name, dflt)
  {
    r := bag;
    if name in r {
      SetWrapperFileNameThenDelete(r, name, Str(OptionValue(dflt, r[name])));
      r := SetWrapperFileName(r, name, Str(OptionValue(dflt, r[name])));
      r := r - {name};
    }
    var fileName := WrapperFileName(r, name);
    if WrapperEntry(r, name).Some? && !(fileName.Some? && Truthy(fileName.value)) {
      if name in bag {
        SetWrapperFileNameTwice(bag - {name}, name, Str(OptionValue(dflt, bag[name])), Str(dflt));
      } else {
        assert bag - {name} == bag;
      }
      r := SetWrapperFileName(r, name, Str(dflt));
    }
  }

  /** Normalising a wrapper configuration a second time changes nothing. */
  lemma ConfigFileNameIdempotent(bag: Bag, name: string, dflt: string)
    requires name != RuleSetKey
    ensures var once := ConfigFileNameNormalized(bag, name, dflt);
            ConfigFileNameNormalized(once, name, dflt) == once
  {
    var once := ConfigFileNameNormalized(bag, name, dflt);
    if once != bag {
      var res := ResolvedWrapperFileName(bag, name, dflt);
      assert once == SetWrapperFileName(bag - {name}, name, res);
      if !Truthy(res) {
        assert res == Str(dflt);
        assert once - {name} == once;
        SetWrapperFileNameTwice(bag - {name}, name, res, res);
      }
    }
  }

  // ---------------------------------------------------------------------
  // The pipeline
  // ---------------------------------------------------------------------

  const WrapperShorthands: set<string> := {"webpackConfig", "tsConfig", "babelConfig"}

  /** The keys the pipeline may add whatever the caller passed. */
  const AddedKeys: set<string> := {"outputTo", "outputType", "validate", "rulesFile", "ruleSet", "knownViolationsFile"}

  /** The keys whose value the pipeline may rewrite. */
  const RewrittenKeys: set<string> :=
    {"moduleSystems", "validate", "rulesFile", "ruleSet", "progress", "knownViolationsFile"} + WrapperShorthands

  /** The caller passed `k` and it is a known option. */
  predicate Supplied(opts: Bag, known: seq<string>, k: string)
  {
    k in opts && IsKnownCliOption(known, k)
  }

  /** `moduleSystems`, when passed, is a string (the source calls `split`
      on it). */
  predicate ModuleSystemsIsString(opts: Bag, known: seq<string>)
  {
    Supplied(opts, known, "moduleSystems") ==> opts["moduleSystems"].Str?
  }

  /** The value `validate` has once `config` has been aliased onto it. */
  function ValidateTarget(opts: Bag, known: seq<string>): Option<Value>
  {
    if Supplied(opts, known, "config") then Some(opts["config"])
    else if Supplied(opts, known, "validate") then Some(opts["validate"])
    else None
  }

  /** The rule set validation loads for a `validate` value: the rules file
      resolved and handed to the loader, or the first error met. */
  function LoadedRuleSet(validate: Value, d: Defaults, env: Env): Result<RuleSet>
  {
    match RulesFileName(validate, d, env)
    case Err(e) => Err(e)
    case Ok(f) => env.load(LoadPath(f, env))
  }

  /** The rules file resolves and loads, or no validation was asked for. */
  predicate ValidationSucceeds(opts: Bag, known: seq<string>, d: Defaults, env: Env)
  {
    match ValidateTarget(opts, known)
    case None => true
    case Some(v) => LoadedRuleSet(v, d, env).Ok?
  }

  /** The baseline file is readable, or none was asked for. */
  predicate BaselineReadable(opts: Bag, known: seq<string>, d: Defaults, env: Env)
  {
    Supplied(opts, known, "ignoreKnown") ==> OptionValue(d.defaultBaselineFileName, opts["ignoreKnown"]) in env.readable
  }

  /** The bag after the first stages of `normalizeOptions`: known keys
      only, output defaults seeded, `moduleSystems` split and `config`
      aliased onto `validate`; every other passed option as it was. */
  ghost predicate Prepared(opts: Bag, known: seq<string>, d: Defaults, bag: Bag)
  {
    && "outputTo" in bag && bag["outputTo"] == (if Supplied(opts, known, "outputTo") then opts["outputTo"] else Str(d.outputTo))
    && "outputType" in bag && bag["outputType"] == (if Supplied(opts, known, "outputType") then opts["outputType"] else Str(d.outputType))
    && (Supplied(opts, known, "moduleSystems") ==>
          opts["moduleSystems"].Str? && "moduleSystems" in bag
          && bag["moduleSystems"] == StrList(SplitModuleSystems(opts["moduleSystems"].s)))
    && ("validate" in bag <==> ValidateTarget(opts, known).Some?)
    && ("validate" in bag ==> bag["validate"] == ValidateTarget(opts, known).value)
    && (forall k :: Supplied(opts, known, k) && k != "moduleSystems" && k != "validate" ==> k in bag && bag[k] == opts[k])
    && (forall k :: k in bag ==> k == "outputTo" || k == "outputType" || k == "validate" || Supplied(opts, known, k))
  }

  /** The first stages of `normalizeOptions`, which fail only when
      `moduleSystems` is not a string. */
  method PrepareOptions(opts: Bag, known: seq<string>, d: Defaults) returns (r: Result<Bag>)
    ensures r.Err? <==> !ModuleSystemsIsString(opts, known)
    ensures r.Err? ==> r.error == NotAString("moduleSystems")
    ensures r.Ok? ==> Prepared(opts, known, d, r.value)
  {
    var bag := SeedOutputDefaults(EjectNonCliOptions(opts, known), d);

    if "moduleSystems" in bag {
      if !bag["moduleSystems"].Str? {
        return Err(NotAString("moduleSystems"));
      }
      bag := bag["moduleSystems" := StrList(SplitModuleSystems(bag["moduleSystems"].s))];
    }

    if "config" in bag {
      bag := bag["validate" := bag["config"]];
    }
    return Ok(bag);
  }

  /** On a prepared bag, validation succeeds exactly when the input asks
      for none or names a rules file that resolves and loads. */
  lemma PreparedValidation(opts: Bag, known: seq<string>, d: Defaults, env: Env, bag: Bag)
    requires Prepared(opts, known, d, bag)
    ensures NormalizeValidationOption(bag, d, env).Ok? <==> ValidationSucceeds(opts, known, d, env)
    ensures ValidateTarget(opts, known).Some? ==> bag["validate"] == ValidateTarget(opts, known).value
    ensures ValidateTarget(opts, known).Some? && LoadedRuleSet(ValidateTarget(opts, known).value, d, env).Err? ==>
              NormalizeValidationOption(bag, d, env) == Err(LoadedRuleSet(ValidateTarget(opts, known).value, d, env).error)
  {
  }

  /** On a prepared bag, the known-violations stage succeeds exactly when
      the baseline file it names is readable. */
  lemma PreparedBaseline(opts: Bag, known: seq<string>, d: Defaults, env: Env, bag: Bag)
    requires Prepared(opts, known, d, bag)
    ensures ("ignoreKnown" in bag) == Supplied(opts, known, "ignoreKnown")
    ensures "ignoreKnown" in bag ==> bag["ignoreKnown"] == opts["ignoreKnown"]
    ensures NormalizeKnownViolationsOption(bag, d, env).Ok? <==> BaselineReadable(opts, known, d, env)
  {
  }

  /** What the three merges of `normalizeOptions` leave: `validate` set to
      whether the bag had it, the resolved rules file and the rule set the
      loader returned for it, the canonical progress value, the
      known-violations file, and every other key as it was. */
  ghost predicate MergedFrom(bag: Bag, d: Defaults, env: Env, out: Bag)
  {
    && MergedValidation(bag, d, env, out)
    && MergedProgress(bag, out)
    && MergedBaseline(bag, d, out)
    && (forall k :: k !in {"validate", "rulesFile", "ruleSet", "progress", "knownViolationsFile"} ==>
          (k in out <==> k in bag) && (k in bag ==> out[k] == bag[k]))
  }

  /** The validation clauses of `MergedFrom`. */
  ghost predicate MergedValidation(bag: Bag, d: Defaults, env: Env, out: Bag)
  {
    && "validate" in out && out["validate"] == Bool("validate" in bag)
    && ("validate" in bag ==>
          && RulesFileName(bag["validate"], d, env).Ok?
          && LoadedRuleSet(bag["validate"], d, env).Ok?
          && "rulesFile" in out && out["rulesFile"] == Str(RulesFileName(bag["validate"], d, env).value)
          && "ruleSet" in out && out["ruleSet"] == Rules(LoadedRuleSet(bag["validate"], d, env).value))
    && ("validate" !in bag ==>
          && ("rulesFile" in out <==> "rulesFile" in bag) && ("rulesFile" in bag ==> out["rulesFile"] == bag["rulesFile"])
          && ("ruleSet" in out <==> "ruleSet" in bag) && ("ruleSet" in bag ==> out["ruleSet"] == bag["ruleSet"]))
  }

  /** The progress clauses of `MergedFrom`. */
  ghost predicate MergedProgress(bag: Bag, out: Bag)
  {
    && ("progress" in out <==> "progress" in bag)
    && ("progress" in bag ==> out["progress"] == (if bag["progress"] == Bool(true) then Str(CliFeedback) else bag["progress"]))
  }

  /** The known-violations clauses of `MergedFrom`. */
  ghost predicate MergedBaseline(bag: Bag, d: Defaults, out: Bag)
  {
    && ("ignoreKnown" in bag ==>
          "knownViolationsFile" in out
          && out["knownViolationsFile"] == Str(OptionValue(d.defaultBaselineFileName, bag["ignoreKnown"])))
    && ("ignoreKnown" !in bag ==>
          ("knownViolationsFile" in out <==> "knownViolationsFile" in bag)
          && ("knownViolationsFile" in bag ==> out["knownViolationsFile"] == bag["knownViolationsFile"]))
  }

  /** The keys the merges read and write are distinct. */
  lemma MergeKeysDistinct()
    ensures "validate" != "rulesFile" && "validate" != "ruleSet" && "validate" != "progress"
    ensures "validate" != "knownViolationsFile" && "validate" != "ignoreKnown"
    ensures "rulesFile" != "ruleSet" && "rulesFile" != "progress" && "rulesFile" != "knownViolationsFile" && "rulesFile" != "ignoreKnown"
    ensures "ruleSet" != "progress" && "ruleSet" != "knownViolationsFile" && "ruleSet" != "ignoreKnown"
    ensures "progress" != "knownViolationsFile" && "progress" != "ignoreKnown"
    ensures "knownViolationsFile" != "ignoreKnown"
  {
    assert "rulesFile"[4] != "ruleSet"[4];
    assert "validate"[0] != "rulesFile"[0] && "validate"[0] != "progress"[0] && "validate"[0] != "knownViolationsFile"[0];
    assert "validate"[0] != "ignoreKnown"[0] && "rulesFile"[0] != "progress"[0] && "rulesFile"[0] != "knownViolationsFile"[0];
    assert "rulesFile"[0] != "ignoreKnown"[0] && "progress"[0] != "knownViolationsFile"[0] && "progress"[0] != "ignoreKnown"[0];
    assert "knownViolationsFile"[0] != "ignoreKnown"[0];
  }

  /** The three merges of `normalizeOptions`: validation, then progress,
      then known violations, each result overriding the bag's keys; the
      first failing stage decides the error. */
  method MergeNormalizedOptions(bag: Bag, d: Defaults, env: Env) returns (r: Result<Bag>)
    ensures NormalizeValidationOption(bag, d, env).Err? ==> r == NormalizeValidationOption(bag, d, env)
    ensures NormalizeValidationOption(bag, d, env).Ok? ==>
              (r.Ok? <==> NormalizeKnownViolationsOption(bag, d, env).Ok?)
    ensures NormalizeValidationOption(bag, d, env).Ok? && NormalizeKnownViolationsOption(bag, d, env).Err? ==>
              r == NormalizeKnownViolationsOption(bag, d, env)
    ensures r.Ok? ==> MergedFrom(bag, d, env, r.value)
  {
    var validation := NormalizeValidationOption(bag, d, env);
    if validation.Err? {
      return validation;
    }
    var merged := bag + validation.value;
    var progress := NormalizeProgress(merged);
    merged := merged + progress;

    var knownViolations := NormalizeKnownViolationsOption(merged, d, env);
    assert NormalizeKnownViolationsOption(merged, d, env) == NormalizeKnownViolationsOption(bag, d, env);
    if knownViolations.Err? {
      return knownViolations;
    }
    MergedShape(bag, d, env, validation.value, progress, knownViolations.value);
    merged := merged + knownViolations.value;
    return Ok(merged);
  }

  /** The three results merged over the bag meet `MergedFrom`. */
  lemma MergedShape(bag: Bag, d: Defaults, env: Env, validation: Bag, progress: Bag, knownViolations: Bag)
    requires NormalizeValidationOption(bag, d, env) == Ok(validation)
    requires progress == NormalizeProgress(bag + validation)
    requires NormalizeKnownViolationsOption(bag, d, env) == Ok(knownViolations)
    ensures MergedFrom(bag, d, env, bag + validation + progress + knownViolations)
  {
    MergeFrame(bag, validation, progress, knownViolations);
    MergedValidationShape(bag, d, env, validation, progress, knownViolations);
    MergedProgressShape(bag, validation, progress, knownViolations);
    MergedBaselineShape(bag, d, env, validation, progress, knownViolations);
  }

  lemma MergedValidationShape(bag: Bag, d: Defaults, env: Env, validation: Bag, progress: Bag, knownViolations: Bag)
    requires NormalizeValidationOption(bag, d, env) == Ok(validation)
    requires progress.Keys <= {"progress"}
    requires knownViolations.Keys <= {"knownViolationsFile"}
    ensures MergedValidation(bag, d, env, bag + validation + progress + knownViolations)
  {
    MergeKeysDistinct();
  }

  lemma MergedProgressShape(bag: Bag, validation: Bag, progress: Bag, knownViolations: Bag)
    requires validation.Keys <= {"validate", "rulesFile", "ruleSet"}
    requires progress == NormalizeProgress(bag + validation)
    requires knownViolations.Keys <= {"knownViolationsFile"}
    ensures MergedProgress(bag, bag + validation + progress + knownViolations)
  {
    MergeKeysDistinct();
  }

  lemma MergedBaselineShape(bag: Bag, d: Defaults, env: Env, validation: Bag, progress: Bag, knownViolations: Bag)
    requires validation.Keys <= {"validate", "rulesFile", "ruleSet"}
    requires progress.Keys <= {"progress"}
    requires NormalizeKnownViolationsOption(bag, d, env) == Ok(knownViolations)
    ensures MergedBaseline(bag, d, bag + validation + progress + knownViolations)
  {
    MergeKeysDistinct();
  }

  /** Merging results whose keys are among the five the merges write
      leaves every other key of the bag as it was. */
  lemma MergeFrame(bag: Bag, validation: Bag, progress: Bag, knownViolations: Bag)
    requires validation.Keys <= {"validate", "rulesFile", "ruleSet"}
    requires progress.Keys <= {"progress"}
    requires knownViolations.Keys <= {"knownViolationsFile"}
    ensures var out := bag + validation + progress + knownViolations;
            forall k :: k !in {"validate", "rulesFile", "ruleSet", "progress", "knownViolationsFile"} ==>
              (k in out <==> k in bag) && (k in bag ==> out[k] == bag[k])
  {
  }

  /** The default file name of each wrapper shorthand. */
  function WrapperDefault(d: Defaults, w: string): string
  {
    if w == "webpackConfig" then d.webpackConfig
    else if w == "tsConfig" then d.typescriptConfig
    else d.babelConfig
  }

  /** What the passes leave for one wrapper `w`: no shorthand; when the
      bag had a shorthand or an entry, the resolved `fileName`; otherwise
      still no entry; every other field of the entry as it was. */
  ghost predicate WrapperDone(bag: Bag, w: string, dflt: string, out: Bag)
  {
    && w !in out
    && ((w in bag || WrapperEntry(bag, w).Some?) ==> WrapperFileName(out, w) == Some(ResolvedWrapperFileName(bag, w, dflt)))
    && (w !in bag && WrapperEntry(bag, w).None? ==> WrapperEntry(out, w).None?)
    && (forall f :: f != FileNameKey && WrapperEntry(bag, w).Some? && f in WrapperEntry(bag, w).value ==>
          WrapperEntry(out, w).Some? && f in WrapperEntry(out, w).value && WrapperEntry(out, w).value[f] == WrapperEntry(bag, w).value[f])
    && (WrapperEntry(out, w).Some? ==>
          WrapperEntry(out, w).value.Keys <= {FileNameKey} + (if WrapperEntry(bag, w).Some? then WrapperEntry(bag, w).value.Keys else {}))
  }

  /** What the three wrapper passes leave: each wrapper done as above;
      every other entry of `ruleSet.options`, the rest of the rule set and
      every key but `ruleSet` as they were; nothing at all changes when
      there is neither a shorthand nor a wrapper entry. */
  ghost predicate WrappedFrom(bag: Bag, d: Defaults, out: Bag)
  {
    && (forall w :: w in WrapperShorthands ==> WrapperDone(bag, w, WrapperDefault(d, w), out))
    && (forall n :: n !in WrapperShorthands ==> WrapperEntry(out, n) == WrapperEntry(bag, n))
    && RuleSetOf(out).rules == RuleSetOf(bag).rules
    && (RuleSetKey in out <==> RuleSetKey in bag || "webpackConfig" in bag || "tsConfig" in bag || "babelConfig" in bag)
    && (RuleSetKey in bag && bag[RuleSetKey].Rules? ==> out[RuleSetKey].Rules?)
    && ((forall w :: w in WrapperShorthands ==> w !in bag && WrapperEntry(bag, w).None?) ==> out == bag)
    && (forall k :: k !in WrapperShorthands && k != RuleSetKey ==> (k in out <==> k in bag) && (k in out ==> out[k] == bag[k]))
  }

  /** The three shorthands are distinct and none of them is `ruleSet`. */
  lemma ShorthandsDistinct()
    ensures "webpackConfig" != "tsConfig" && "webpackConfig" != "babelConfig" && "tsConfig" != "babelConfig"
    ensures forall w :: w in WrapperShorthands ==> w != RuleSetKey
  {
    assert "webpackConfig"[0] != "tsConfig"[0] && "webpackConfig"[0] != "babelConfig"[0] && "tsConfig"[0] != "babelConfig"[0];
    assert "webpackConfig"[0] != RuleSetKey[0] && "tsConfig"[0] != RuleSetKey[0] && "babelConfig"[0] != RuleSetKey[0];
  }

  /** One pass finishes its own wrapper. */
  lemma PassDone(bag: Bag, name: string, dflt: string)
    requires name != RuleSetKey
    ensures WrapperDone(bag, name, dflt, ConfigFileNameNormalized(bag, name, dflt))
  {
  }

  /** A pass for another wrapper keeps a finished wrapper finished. */
  lemma {:induction false} DoneKept(bag: Bag, w: string, dflt: string, mid: Bag, name: string, dflt2: string)
    requires name != RuleSetKey && w != name && w != RuleSetKey
    requires WrapperDone(bag, w, dflt, mid)
    ensures WrapperDone(bag, w, dflt, ConfigFileNameNormalized(mid, name, dflt2))
  {
    var r := ConfigFileNameNormalized(mid, name, dflt2);
    assert WrapperEntry(r, w) == WrapperEntry(mid, w);
  }

  /** A pass for another wrapper leaves what this wrapper's pass will see. */
  lemma {:induction false} PassSeesSame(bag: Bag, w: string, dflt: string, name: string, dflt2: string, out: Bag)
    requires name != RuleSetKey && w != name && w != RuleSetKey
    requires WrapperDone(ConfigFileNameNormalized(bag, name, dflt2), w, dflt, out)
    ensures WrapperDone(bag, w, dflt, out)
  {
    var r := ConfigFileNameNormalized(bag, name, dflt2);
    assert WrapperEntry(r, w) == WrapperEntry(bag, w);
    assert w in r <==> w in bag;
    assert w in bag ==> r[w] == bag[w];
    assert ResolvedWrapperFileName(r, w, dflt) == ResolvedWrapperFileName(bag, w, dflt);
  }

  /** The three `normalizeConfigFileName` passes of `normalizeOptions`,
      one after the other, in the source's order and with its defaults. */
  function WrapperConfigsNormalized(bag: Bag, d: Defaults): Bag
  {
    ShorthandsDistinct();
    var r1 := ConfigFileNameNormalized(bag, "webpackConfig", d.webpackConfig);
    var r2 := ConfigFileNameNormalized(r1, "tsConfig", d.typescriptConfig);
    ConfigFileNameNormalized(r2, "babelConfig", d.babelConfig)
  }

  /** After the three passes every wrapper is done. */
  lemma PassesDone(bag: Bag, d: Defaults)
    ensures forall w :: w in WrapperShorthands ==> WrapperDone(bag, w, WrapperDefault(d, w), WrapperConfigsNormalized(bag, d))
  {
    ShorthandsDistinct();
    var r1 := ConfigFileNameNormalized(bag, "webpackConfig", d.webpackConfig);
    var r2 := ConfigFileNameNormalized(r1, "tsConfig", d.typescriptConfig);
    var r3 := ConfigFileNameNormalized(r2, "babelConfig", d.babelConfig);
    PassDone(bag, "webpackConfig", d.webpackConfig);
    DoneKept(bag, "webpackConfig", d.webpackConfig, r1, "tsConfig", d.typescriptConfig);
    DoneKept(bag, "webpackConfig", d.webpackConfig, r2, "babelConfig", d.babelConfig);
    PassDone(r1, "tsConfig", d.typescriptConfig);
    PassSeesSame(bag, "tsConfig", d.typescriptConfig, "webpackConfig", d.webpackConfig, r2);
    DoneKept(bag, "tsConfig", d.typescriptConfig, r2, "babelConfig", d.babelConfig);
    PassDone(r2, "babelConfig", d.babelConfig);
    PassSeesSame(r1, "babelConfig", d.babelConfig, "tsConfig", d.typescriptConfig, r3);
    PassSeesSame(bag, "babelConfig", d.babelConfig, "webpackConfig", d.webpackConfig, r3);
    assert WrapperDefault(d, "webpackConfig") == d.webpackConfig;
    assert WrapperDefault(d, "tsConfig") == d.typescriptConfig;
    assert WrapperDefault(d, "babelConfig") == d.babelConfig;
  }

  /** The three wrapper passes meet `WrappedFrom`: each wrapper resolved,
      everything else in the bag and the rule set kept. */
  lemma WrapperPasses(bag: Bag, d: Defaults)
    ensures WrappedFrom(bag, d, WrapperConfigsNormalized(bag, d))
  {
    ShorthandsDistinct();
    PassesDone(bag, d);
    var r1 := ConfigFileNameNormalized(bag, "webpackConfig", d.webpackConfig);
    var r2 := ConfigFileNameNormalized(r1, "tsConfig", d.typescriptConfig);
    assert "tsConfig" in r1 <==> "tsConfig" in bag;
    assert "babelConfig" in r2 <==> "babelConfig" in bag;
  }

  /** The three `normalizeConfigFileName` passes of `normalizeOptions`. */
  method NormalizeWrapperConfigs(bag: Bag, d: Defaults) returns (r: Bag)
    ensures r == WrapperConfigsNormalized(bag, d)
  {
    r := NormalizeConfigFileName(bag, "webpackConfig", d.webpackConfig);
    r := NormalizeConfigFileName(r, "tsConfig", d.typescriptConfig);
    r := NormalizeConfigFileName(r, "babelConfig", d.babelConfig);
  }

  /** The options the pipeline only seeds or passes through are none of
      the keys its later stages write. */
  lemma PassedThroughKeys()
    ensures "outputTo" !in RewrittenKeys && "outputType" !in RewrittenKeys
    ensures "moduleSystems" !in {"validate", "rulesFile", "ruleSet", "progress", "knownViolationsFile"} + WrapperShorthands
    ensures "progress" !in {"validate", "rulesFile", "ruleSet", "knownViolationsFile"} + WrapperShorthands
    ensures forall k :: k in {"validate", "rulesFile", "knownViolationsFile"} ==> k !in WrapperShorthands && k != RuleSetKey
    ensures "ignoreKnown" != "moduleSystems" && "ignoreKnown" != "validate"
  {
    assert "validate"[0] != "webpackConfig"[0] && "validate"[0] != "tsConfig"[0] && "validate"[0] != "babelConfig"[0];
    assert "rulesFile"[0] != "webpackConfig"[0] && "rulesFile"[0] != "tsConfig"[0] && "rulesFile"[0] != "babelConfig"[0];
    assert "rulesFile"[4] != RuleSetKey[4];
    assert "ignoreKnown"[0] != "validate"[0];
    assert "outputTo"[0] != "validate"[0] && "outputTo"[0] != "progress"[0] && "outputTo"[0] != "tsConfig"[0];
    assert "moduleSystems"[0] != "webpackConfig"[0];
    assert "progress"[0] != "validate"[0] && "progress"[0] != "tsConfig"[0];
  }

  /** The output defaults, which the caller's values override, and
      `moduleSystems` split and trimmed. */
  ghost predicate OutputsFrom(opts: Bag, known: seq<string>, d: Defaults, out: Bag)
  {
    && "outputTo" in out && out["outputTo"] == (if Supplied(opts, known, "outputTo") then opts["outputTo"] else Str(d.outputTo))
    && "outputType" in out && out["outputType"] == (if Supplied(opts, known, "outputType") then opts["outputType"] else Str(d.outputType))
    && (Supplied(opts, known, "moduleSystems") ==>
          opts["moduleSystems"].Str? && "moduleSystems" in out
          && out["moduleSystems"] == StrList(SplitModuleSystems(opts["moduleSystems"].s)))
  }

  /** `validate` is true exactly when `validate` or `config` was passed,
      with the rules file resolution chose, which loads; `progress` is
      canonical and the known-violations file resolved. */
  ghost predicate ResolvedFrom(opts: Bag, known: seq<string>, d: Defaults, env: Env, out: Bag)
  {
    && "validate" in out && out["validate"] == Bool(ValidateTarget(opts, known).Some?)
    && (ValidateTarget(opts, known).Some? ==>
          && RulesFileName(ValidateTarget(opts, known).value, d, env).Ok?
          && LoadedRuleSet(ValidateTarget(opts, known).value, d, env).Ok?
          && "rulesFile" in out
          && out["rulesFile"] == Str(RulesFileName(ValidateTarget(opts, known).value, d, env).value))
    && ("progress" in out <==> Supplied(opts, known, "progress"))
    && (Supplied(opts, known, "progress") ==>
          out["progress"] == (if opts["progress"] == Bool(true) then Str(CliFeedback) else opts["progress"]))
    && (Supplied(opts, known, "ignoreKnown") ==>
          "knownViolationsFile" in out
          && out["knownViolationsFile"] == Str(OptionValue(d.defaultBaselineFileName, opts["ignoreKnown"])))
  }

  /** No wrapper shorthand is left, and each passed one's file name sits
      in `ruleSet.options.<name>.fileName`. */
  ghost predicate WrappersFrom(opts: Bag, known: seq<string>, d: Defaults, out: Bag)
  {
    && (forall w :: w in WrapperShorthands ==> w !in out)
    && (Supplied(opts, known, "webpackConfig") ==>
          WrapperFileName(out, "webpackConfig") == Some(ShorthandFileName(opts["webpackConfig"], d.webpackConfig)))
    && (Supplied(opts, known, "tsConfig") ==>
          WrapperFileName(out, "tsConfig") == Some(ShorthandFileName(opts["tsConfig"], d.typescriptConfig)))
    && (Supplied(opts, known, "babelConfig") ==>
          WrapperFileName(out, "babelConfig") == Some(ShorthandFileName(opts["babelConfig"], d.babelConfig)))
  }

  /** The `ruleSet` the merges leave for the wrapper passes: the rule set
      validation loaded, or else whatever the caller passed, as a bag
      holding at most that key. */
  ghost function MergedRuleSet(opts: Bag, known: seq<string>, d: Defaults, env: Env): (base: Bag)
    ensures base.Keys <= {RuleSetKey}
  {
    match ValidateTarget(opts, known)
    case Some(v) => if LoadedRuleSet(v, d, env).Ok? then map[RuleSetKey := Rules(LoadedRuleSet(v, d, env).value)] else map[]
    case None => if Supplied(opts, known, RuleSetKey) then map[RuleSetKey := opts[RuleSetKey]] else map[]
  }

  /** The normalised rule set, stated against the merged one: present when
      that one was or a shorthand was passed; its `rules` and every entry of
      `options` but the wrapper ones as merged; a wrapper entry without a
      shorthand resolved from its own `fileName` or the default, or absent
      as before; the other fields of wrapper entries kept. */
  ghost predicate RuleSetFrom(opts: Bag, known: seq<string>, d: Defaults, env: Env, out: Bag)
  {
    RuleSetWrapped(opts, known, d, MergedRuleSet(opts, known, d, env), out)
  }

  /** `RuleSetFrom` against a given merged rule set `base`. */
  ghost predicate RuleSetWrapped(opts: Bag, known: seq<string>, d: Defaults, base: Bag, out: Bag)
  {
    && (RuleSetKey in out <==>
          RuleSetKey in base || Supplied(opts, known, "webpackConfig") || Supplied(opts, known, "tsConfig") || Supplied(opts, known, "babelConfig"))
    && (RuleSetKey in base && base[RuleSetKey].Rules? ==> out[RuleSetKey].Rules?)
    && (RuleSetKey in base && (forall w :: w in WrapperShorthands ==> !Supplied(opts, known, w) && WrapperEntry(base, w).None?) ==>
          RuleSetKey in out && out[RuleSetKey] == base[RuleSetKey])
    && RuleSetOf(out).rules == RuleSetOf(base).rules
    && (forall n :: n !in WrapperShorthands ==> WrapperEntry(out, n) == WrapperEntry(base, n))
    && (forall w :: w in WrapperShorthands && !Supplied(opts, known, w) && WrapperEntry(base, w).Some? ==>
          WrapperFileName(out, w) == Some(ResolvedWrapperFileName(base, w, WrapperDefault(d, w))))
    && (forall w :: w in WrapperShorthands && !Supplied(opts, known, w) && WrapperEntry(base, w).None? ==> WrapperEntry(out, w).None?)
    && (forall w, f :: w in WrapperShorthands && f != FileNameKey && WrapperEntry(base, w).Some? && f in WrapperEntry(base, w).value ==>
          WrapperEntry(out, w).Some? && f in WrapperEntry(out, w).value && WrapperEntry(out, w).value[f] == WrapperEntry(base, w).value[f])
    && (forall w :: w in WrapperShorthands && WrapperEntry(out, w).Some? ==>
          WrapperEntry(out, w).value.Keys <= {FileNameKey} + (if WrapperEntry(base, w).Some? then WrapperEntry(base, w).value.Keys else {}))
  }

  /** Every other known option is unchanged, no unknown key appears, and
      the rules file and baseline appear only when their stage ran or the
      caller passed them. */
  ghost predicate KeysFrom(opts: Bag, known: seq<string>, out: Bag)
  {
    && (forall k :: Supplied(opts, known, k) && k !in RewrittenKeys ==> k in out && out[k] == opts[k])
    && (forall k :: k in out ==> k in AddedKeys || (Supplied(opts, known, k) && k !in WrapperShorthands))
    && ("rulesFile" in out ==> ValidateTarget(opts, known).Some? || Supplied(opts, known, "rulesFile"))
    && ("knownViolationsFile" in out ==> Supplied(opts, known, "ignoreKnown") || Supplied(opts, known, "knownViolationsFile"))
    && (ValidateTarget(opts, known).None? && Supplied(opts, known, "rulesFile") ==>
          "rulesFile" in out && out["rulesFile"] == opts["rulesFile"])
    && (!Supplied(opts, known, "ignoreKnown") && Supplied(opts, known, "knownViolationsFile") ==>
          "knownViolationsFile" in out && out["knownViolationsFile"] == opts["knownViolationsFile"])
  }

  /** The normalised options, stated against the caller's input. */
  ghost predicate NormalizedFrom(opts: Bag, known: seq<string>, d: Defaults, env: Env, out: Bag)
  {
    && OutputsFrom(opts, known, d, out)
    && ResolvedFrom(opts, known, d, env, out)
    && WrappersFrom(opts, known, d, out)
    && RuleSetFrom(opts, known, d, env, out)
    && KeysFrom(opts, known, out)
  }

  lemma OutputsCompose(opts: Bag, known: seq<string>, d: Defaults, env: Env, prepared: Bag, merged: Bag, out: Bag)
    requires Prepared(opts, known, d, prepared)
    requires MergedFrom(prepared, d, env, merged)
    requires WrappedFrom(merged, d, out)
    ensures OutputsFrom(opts, known, d, out)
  {
    PassedThroughKeys();
    assert out["outputTo"] == merged["outputTo"] == prepared["outputTo"];
    assert out["outputType"] == merged["outputType"] == prepared["outputType"];
    assert "moduleSystems" in prepared ==> out["moduleSystems"] == merged["moduleSystems"] == prepared["moduleSystems"];
  }

  lemma ResolvedCompose(opts: Bag, known: seq<string>, d: Defaults, env: Env, prepared: Bag, merged: Bag, out: Bag)
    requires Prepared(opts, known, d, prepared)
    requires MergedFrom(prepared, d, env, merged)
    requires WrappedFrom(merged, d, out)
    ensures ResolvedFrom(opts, known, d, env, out)
  {
    ValidationResolved(opts, known, d, env, prepared, merged, out);
    ProgressResolved(opts, known, d, env, prepared, merged, out);
    BaselineResolved(opts, known, d, env, prepared, merged, out);
  }

  /** `validate` says whether validation ran, and when it did `rulesFile` is
      the file resolution chose. */
  lemma ValidationResolved(opts: Bag, known: seq<string>, d: Defaults, env: Env, prepared: Bag, merged: Bag, out: Bag)
    requires Prepared(opts, known, d, prepared)
    requires MergedFrom(prepared, d, env, merged)
    requires WrappedFrom(merged, d, out)
    ensures "validate" in out && out["validate"] == Bool(ValidateTarget(opts, known).Some?)
    ensures ValidateTarget(opts, known).Some? ==>
              && RulesFileName(ValidateTarget(opts, known).value, d, env).Ok?
              && LoadedRuleSet(ValidateTarget(opts, known).value, d, env).Ok?
              && "rulesFile" in out
              && out["rulesFile"] == Str(RulesFileName(ValidateTarget(opts, known).value, d, env).value)
  {
    PassedThroughKeys();
    assert out["validate"] == merged["validate"];
    if ValidateTarget(opts, known).Some? {
      assert out["rulesFile"] == merged["rulesFile"];
    }
  }

  /** `progress` is there exactly when it was passed, in canonical form. */
  lemma ProgressResolved(opts: Bag, known: seq<string>, d: Defaults, env: Env, prepared: Bag, merged: Bag, out: Bag)
    requires Prepared(opts, known, d, prepared)
    requires MergedFrom(prepared, d, env, merged)
    requires WrappedFrom(merged, d, out)
    ensures "progress" in out <==> Supplied(opts, known, "progress")
    ensures Supplied(opts, known, "progress") ==>
              out["progress"] == (if opts["progress"] == Bool(true) then Str(CliFeedback) else opts["progress"])
  {
    MergeKeysDistinct();
    PassedThroughKeys();
    assert "progress" in prepared ==> out["progress"] == merged["progress"];
  }

  /** With `ignoreKnown`, `knownViolationsFile` is the resolved baseline. */
  lemma BaselineResolved(opts: Bag, known: seq<string>, d: Defaults, env: Env, prepared: Bag, merged: Bag, out: Bag)
    requires Prepared(opts, known, d, prepared)
    requires MergedFrom(prepared, d, env, merged)
    requires WrappedFrom(merged, d, out)
    ensures Supplied(opts, known, "ignoreKnown") ==>
              "knownViolationsFile" in out
              && out["knownViolationsFile"] == Str(OptionValue(d.defaultBaselineFileName, opts["ignoreKnown"]))
  {
    MergeKeysDistinct();
    PassedThroughKeys();
    if Supplied(opts, known, "ignoreKnown") {
      assert prepared["ignoreKnown"] == opts["ignoreKnown"];
      assert out["knownViolationsFile"] == merged["knownViolationsFile"];
    }
  }

  lemma WrappersCompose(opts: Bag, known: seq<string>, d: Defaults, env: Env, prepared: Bag, merged: Bag, out: Bag)
    requires Prepared(opts, known, d, prepared)
    requires MergedFrom(prepared, d, env, merged)
    requires WrappedFrom(merged, d, out)
    ensures WrappersFrom(opts, known, d, out)
  {
    ShorthandsDistinct();
    MergedRuleSetAgrees(opts, known, d, env, prepared, merged);
    WrappersFromMerged(opts, known, d, merged, out);
  }

  /** The wrapper passes on a bag that holds the passed shorthands as the
      caller gave them meet `WrappersFrom`. */
  lemma WrappersFromMerged(opts: Bag, known: seq<string>, d: Defaults, merged: Bag, out: Bag)
    requires forall w :: w in WrapperShorthands ==> (w in merged <==> Supplied(opts, known, w))
    requires forall w :: w in WrapperShorthands && w in merged ==> w in opts && merged[w] == opts[w]
    requires WrappedFrom(merged, d, out)
    ensures WrappersFrom(opts, known, d, out)
  {
    ShorthandsDistinct();
  }

  /** The merged bag holds the merged rule set, and the shorthands exactly
      when the caller passed them. */
  lemma MergedRuleSetAgrees(opts: Bag, known: seq<string>, d: Defaults, env: Env, prepared: Bag, merged: Bag)
    requires Prepared(opts, known, d, prepared)
    requires MergedFrom(prepared, d, env, merged)
    ensures var base := MergedRuleSet(opts, known, d, env);
            && (RuleSetKey in merged <==> RuleSetKey in base)
            && (RuleSetKey in merged ==> merged[RuleSetKey] == base[RuleSetKey])
    ensures forall w :: w in WrapperShorthands ==> (w in merged <==> Supplied(opts, known, w))
    ensures forall w :: w in WrapperShorthands && w in merged ==> w in opts && merged[w] == opts[w]
  {
    MergeKeysDistinct();
    ShorthandsDistinct();
    PassedThroughKeys();
    assert ("validate" in prepared) == ValidateTarget(opts, known).Some?;
    if "validate" !in prepared {
      assert "ruleSet" !in {"outputTo", "outputType", "validate"};
      assert ("ruleSet" in prepared) == Supplied(opts, known, "ruleSet");
    }
  }

  /** The wrapper passes on a bag that holds the merged rule set and the
      passed shorthands meet `RuleSetWrapped`. */
  lemma RuleSetWrappedFrom(opts: Bag, known: seq<string>, d: Defaults, base: Bag, merged: Bag, out: Bag)
    requires base.Keys <= {RuleSetKey}
    requires RuleSetKey in merged <==> RuleSetKey in base
    requires RuleSetKey in merged ==> merged[RuleSetKey] == base[RuleSetKey]
    requires forall w :: w in WrapperShorthands ==> (w in merged <==> Supplied(opts, known, w))
    requires WrappedFrom(merged, d, out)
    ensures RuleSetWrapped(opts, known, d, base, out)
  {
    ShorthandsDistinct();
    assert RuleSetOf(merged) == RuleSetOf(base);
    assert forall n :: WrapperEntry(merged, n) == WrapperEntry(base, n);
    forall w | w in WrapperShorthands && !Supplied(opts, known, w)
      ensures ResolvedWrapperFileName(merged, w, WrapperDefault(d, w)) == ResolvedWrapperFileName(base, w, WrapperDefault(d, w))
    {
      assert WrapperFileName(merged, w) == WrapperFileName(base, w);
    }
  }

  lemma RuleSetCompose(opts: Bag, known: seq<string>, d: Defaults, env: Env, prepared: Bag, merged: Bag, out: Bag)
    requires Prepared(opts, known, d, prepared)
    requires MergedFrom(prepared, d, env, merged)
    requires WrappedFrom(merged, d, out)
    ensures RuleSetFrom(opts, known, d, env, out)
  {
    MergedRuleSetAgrees(opts, known, d, env, prepared, merged);
    RuleSetWrappedFrom(opts, known, d, MergedRuleSet(opts, known, d, env), merged, out);
  }

  /** Every passed option that no stage rewrites is kept as passed. */
  lemma KeysKept(opts: Bag, known: seq<string>, d: Defaults, env: Env, prepared: Bag, merged: Bag, out: Bag)
    requires Prepared(opts, known, d, prepared)
    requires MergedFrom(prepared, d, env, merged)
    requires WrappedFrom(merged, d, out)
    ensures forall k :: Supplied(opts, known, k) && k !in RewrittenKeys ==> k in out && out[k] == opts[k]
  {
  }

  /** Every key of the result was added by a stage or passed by the caller,
      and no shorthand is left. */
  lemma KeysBounded(opts: Bag, known: seq<string>, d: Defaults, env: Env, prepared: Bag, merged: Bag, out: Bag)
    requires Prepared(opts, known, d, prepared)
    requires MergedFrom(prepared, d, env, merged)
    requires WrappedFrom(merged, d, out)
    ensures forall k :: k in out ==> k in AddedKeys || (Supplied(opts, known, k) && k !in WrapperShorthands)
  {
  }

  lemma KeysCompose(opts: Bag, known: seq<string>, d: Defaults, env: Env, prepared: Bag, merged: Bag, out: Bag)
    requires Prepared(opts, known, d, prepared)
    requires MergedFrom(prepared, d, env, merged)
    requires WrappedFrom(merged, d, out)
    ensures KeysFrom(opts, known, out)
  {
    KeysKept(opts, known, d, env, prepared, merged, out);
    KeysBounded(opts, known, d, env, prepared, merged, out);
    RulesFileStaged(opts, known, d, env, prepared, merged, out);
    BaselineStaged(opts, known, d, env, prepared, merged, out);
  }

  /** The rules file is there only when validation ran or the caller passed
      it, and a passed one survives when validation did not run. */
  lemma RulesFileStaged(opts: Bag, known: seq<string>, d: Defaults, env: Env, prepared: Bag, merged: Bag, out: Bag)
    requires Prepared(opts, known, d, prepared)
    requires MergedValidation(prepared, d, env, merged)
    requires WrappedFrom(merged, d, out)
    ensures "rulesFile" in out ==> ValidateTarget(opts, known).Some? || Supplied(opts, known, "rulesFile")
    ensures ValidateTarget(opts, known).None? && Supplied(opts, known, "rulesFile") ==>
              "rulesFile" in out && out["rulesFile"] == opts["rulesFile"]
  {
    MergeKeysDistinct();
    PassedThroughKeys();
    if "rulesFile" in out {
      assert "rulesFile" in merged;
      assert "validate" !in prepared ==> "rulesFile" in prepared;
    }
  }

  /** The baseline is there only when `ignoreKnown` or the caller passed
      it, and a passed one survives when `ignoreKnown` was not passed. */
  lemma BaselineStaged(opts: Bag, known: seq<string>, d: Defaults, env: Env, prepared: Bag, merged: Bag, out: Bag)
    requires Prepared(opts, known, d, prepared)
    requires MergedBaseline(prepared, d, merged)
    requires WrappedFrom(merged, d, out)
    ensures "knownViolationsFile" in out ==> Supplied(opts, known, "ignoreKnown") || Supplied(opts, known, "knownViolationsFile")
    ensures !Supplied(opts, known, "ignoreKnown") && Supplied(opts, known, "knownViolationsFile") ==>
              "knownViolationsFile" in out && out["knownViolationsFile"] == opts["knownViolationsFile"]
  {
    MergeKeysDistinct();
    PassedThroughKeys();
    if "knownViolationsFile" in out {
      assert "knownViolationsFile" in merged;
      assert "ignoreKnown" !in prepared ==> "knownViolationsFile" in prepared;
    }
  }

  /** The stage guarantees compose into the end-to-end one. */
  lemma StagesCompose(opts: Bag, known: seq<string>, d: Defaults, env: Env, prepared: Bag, merged: Bag, out: Bag)
    requires Prepared(opts, known, d, prepared)
    requires MergedFrom(prepared, d, env, merged)
    requires WrappedFrom(merged, d, out)
    ensures NormalizedFrom(opts, known, d, env, out)
  {
    OutputsCompose(opts, known, d, env, prepared, merged, out);
    ResolvedCompose(opts, known, d, env, prepared, merged, out);
    WrappersCompose(opts, known, d, env, prepared, merged, out);
    RuleSetCompose(opts, known, d, env, prepared, merged, out);
    KeysCompose(opts, known, d, env, prepared, merged, out);
  }

  /** When validation ran, the normalised rule set is the loader's: its
      `rules` and every entry of its `options` other than the three wrapper
      ones are exactly what the loader returned. */
  lemma LoadedRuleSetKept(opts: Bag, known: seq<string>, d: Defaults, env: Env, out: Bag)
    requires NormalizedFrom(opts, known, d, env, out)
    requires ValidateTarget(opts, known).Some?
    ensures LoadedRuleSet(ValidateTarget(opts, known).value, d, env).Ok?
    ensures var loaded := LoadedRuleSet(ValidateTarget(opts, known).value, d, env).value;
            && RuleSetKey in out && out[RuleSetKey].Rules?
            && out[RuleSetKey].ruleSet.rules == loaded.rules
            && forall n :: n !in WrapperShorthands ==>
                 (n in out[RuleSetKey].ruleSet.options <==> n in loaded.options)
                 && (n in loaded.options ==> out[RuleSetKey].ruleSet.options[n] == loaded.options[n])
  {
    var loaded := LoadedRuleSet(ValidateTarget(opts, known).value, d, env).value;
    var base := MergedRuleSet(opts, known, d, env);
    assert base == map[RuleSetKey := Rules(loaded)];
    forall n | n !in WrapperShorthands
      ensures (n in out[RuleSetKey].ruleSet.options <==> n in loaded.options)
      ensures n in loaded.options ==> out[RuleSetKey].ruleSet.options[n] == loaded.options[n]
    {
      assert WrapperEntry(out, n) == WrapperEntry(base, n);
    }
  }

  /** Of the keys the pipeline writes, the caller cannot pass `rulesFile`,
      `ruleSet` or `knownViolationsFile` with dependency-cruiser's own
      option list: no option in it starts with `r` or `k`. */
  lemma NotCallerOptions()
    ensures "rulesFile" !in KnownCliOptions && "knownViolationsFile" !in KnownCliOptions
    ensures RuleSetKey !in KnownCliOptions
  {
    forall i | 0 <= i < |KnownCliOptions|
      ensures |KnownCliOptions[i]| > 0 && KnownCliOptions[i][0] != 'r' && KnownCliOptions[i][0] != 'k'
    {
    }
  }

  /** With dependency-cruiser's own option list the caller cannot pass
      `rulesFile`, `ruleSet` or `knownViolationsFile`, so each is in the
      result exactly when the stage that writes it ran. */
  lemma DepcruiseResultKeys(opts: Bag, d: Defaults, env: Env, out: Bag)
    requires NormalizedFrom(opts, KnownCliOptions, d, env, out)
    ensures "rulesFile" in out <==> out["validate"] == Bool(true)
    ensures "knownViolationsFile" in out <==> "ignoreKnown" in opts
    ensures RuleSetKey in out <==>
              out["validate"] == Bool(true) || "webpackConfig" in opts || "tsConfig" in opts || "babelConfig" in opts
  {
    NotCallerOptions();
    assert "ignoreKnown" in KnownCliOptions;
    assert "webpackConfig" in KnownCliOptions && "tsConfig" in KnownCliOptions && "babelConfig" in KnownCliOptions;
  }

  /** `normalizeOptions`: eject unknown keys, seed the output defaults,
      split `moduleSystems`, alias `config` onto `validate`, merge in the
      validation, progress and known-violations results, and normalise the
      three wrapper configurations. */
  method NormalizeOptions(opts: Bag, known: seq<string>, d: Defaults, env: Env) returns (r: Result<Bag>)
    ensures r.Ok? <==> ModuleSystemsIsString(opts, known) && ValidationSucceeds(opts, known, d, env) && BaselineReadable(opts, known, d, env)
    ensures !ModuleSystemsIsString(opts, known) ==> r == Err(NotAString("moduleSystems"))
    ensures ModuleSystemsIsString(opts, known) && ValidateTarget(opts, known).Some? && ValidateTarget(opts, known).value.Str?
              && ValidateTarget(opts, known).value.s !in env.readable ==>
              r == Err(FileNotFound(ValidateTarget(opts, known).value.s))
    ensures ModuleSystemsIsString(opts, known) && ValidateTarget(opts, known).Some? && !ValidateTarget(opts, known).value.Str?
              && (forall i :: 0 <= i < |d.rulesFileNameSearch| ==> d.rulesFileNameSearch[i] !in env.readable) ==>
              r == Err(FileNotFound(d.defaultConfigFileName + "(on)"))
    ensures ModuleSystemsIsString(opts, known) && ValidateTarget(opts, known).Some?
              && LoadedRuleSet(ValidateTarget(opts, known).value, d, env).Err? ==>
              r == Err(LoadedRuleSet(ValidateTarget(opts, known).value, d, env).error)
    ensures ModuleSystemsIsString(opts, known) && ValidationSucceeds(opts, known, d, env) && !BaselineReadable(opts, known, d, env) ==>
              r == Err(FileNotFound(OptionValue(d.defaultBaselineFileName, opts["ignoreKnown"])))
    ensures r.Ok? ==> NormalizedFrom(opts, known, d, env, r.value)
  {
    var prepared := PrepareOptions(opts, known, d);
    if prepared.Err? {
      return prepared;
    }
    PreparedValidation(opts, known, d, env, prepared.value);
    PreparedBaseline(opts, known, d, env, prepared.value);
    var merged := MergeNormalizedOptions(prepared.value, d, env);
    if merged.Err? {
      return merged;
    }
    var normalized := NormalizeWrapperConfigs(merged.value, d);
    WrapperPasses(merged.value, d);
    StagesCompose(opts, known, d, env, prepared.value, merged.value, normalized);
    return Ok(normalized);
  }
}
