# dependency-cruiser: CLI option normalisation and module-specifier attributes

This project models two self-contained parts of dependency-cruiser in Dafny and proves properties about them.

**Option normalisation** (`src/cli/normalize-cli-options.js`). A command-line option bag goes through a fixed pipeline:
- keep only the known option names;
- seed the `outputTo` and `outputType` defaults;
- split and trim `moduleSystems`;
- alias `config` onto `validate`;
- resolve the rules file and load the rule set;
- canonicalise `progress`;
- resolve the known-violations baseline file;
- move the three wrapper-configuration shorthands (`webpackConfig`, `tsConfig`, `babelConfig`) into `ruleSet.options.<shorthand>.fileName`.

**Module-specifier attributes** (`extractModuleAttributes`). A specifier string is split into:
- the module;
- an optional recognised protocol, such as `node:` or `data:`;
- for `data:` URIs, an optional media type in the form of section 3 of RFC 2397.

The implementation of this function is not part of this model. Its unit tests (`test/extract/utl/extract-module-attributes.spec.mjs`) are the contract.

Layout:
- `wrappers.dfy`: module `Wrappers`, the `Option` type.
- `js_values.dfy`: module `JsValues`. It holds the option `Value` type, JavaScript truthiness, `String.prototype.trim`, and `split(",")` with its inverse `Join`.
- `normalize_cli_options.dfy`: module `CliOptions`, the option pipeline. The bag is an immutable `map<string, Value>`. The filesystem, the config loader and `path.isAbsolute` make up the `Env` parameter. The constants of the defaults module make up the `Defaults` parameter. Thrown errors become `Result.Err`.
  - `normalizeConfigFileName` clones the bag and mutates the clone. It is modelled twice: a method that follows those steps, and a declarative function that the method is proved equal to.
  - `normalizeOptions` reassigns its bag stage by stage. It is modelled as a method built from three stage methods, with end-to-end postconditions.
- `extract_module_attributes.dfy`: module `ModuleAttributes`. The recognised protocols are a parameter. The test cases need only `node:` and `data:` to be in the set and `nod:` not to be. `module` is a Dafny keyword, so the field is called `moduleName`.

Decisions where the behaviour could be read two ways:
- An empty media type (`data:,x`) is not split: the comma stays in the module (`,x`). This follows the test at `test/extract/utl/extract-module-attributes.spec.mjs:40-45`.
- The nested key for a wrapper configuration is the shorthand name itself (`ruleSet.options.webpackConfig.fileName`), as the code does. It is not a separate kind name such as `webpack`.
- The merged bag keeps a falsy `progress` value as passed. `normalizeProgress` only adds a key and never removes one.
- The error for an empty rules-file search names `<default config file name>(on)`, as the source's message does.
- `config` overwrites `validate` even when both are passed. The source does this and the model keeps it.

## Model

| member | source | states |
|---|---|---|
| `JsValues.Trim` | src/cli/normalize-cli-options.js:217 | the result is a contiguous slice of the input, everything cut off on either side is whitespace, and the result neither starts nor ends with whitespace |
| `JsValues.TrimStart` | src/cli/normalize-cli-options.js:217 | the result is a suffix of the input, the cut prefix is whitespace, and the result does not start with whitespace |
| `JsValues.TrimEnd` | src/cli/normalize-cli-options.js:217 | the result is a prefix of the input, the cut suffix is whitespace, and the result does not end with whitespace |
| `JsValues.TrimIdempotent` | src/cli/normalize-cli-options.js:217 | trimming twice is trimming once |
| `JsValues.Split` | src/cli/normalize-cli-options.js:216 | `split` yields (number of separators + 1) segments, none containing the separator |
| `JsValues.JoinSplit` | src/cli/normalize-cli-options.js:216 | joining the segments back with the separator gives the input, so no character is lost or reordered |
| `JsValues.SplitJoin` | src/cli/normalize-cli-options.js:216 | splitting the join of separator-free segments gives those segments back |
| `CliOptions.OptionValue` | src/cli/normalize-cli-options.js:38-47 | `getOptionValue`: a string value is returned as is, any other value gives the default |
| `CliOptions.DetermineRulesFileName` | src/cli/normalize-cli-options.js:247-249 | a string is the rules file name, anything else gives the old default rules file name |
| `CliOptions.IsKnownCliOption` | src/cli/normalize-cli-options.js:49-51 | a key is known exactly when some entry of the known list equals it |
| `CliOptions.EjectNonCliOptions` | src/cli/normalize-cli-options.js:61-68 | a key is in the result exactly when it is in the input and known, and its value is unchanged |
| `CliOptions.EjectIdempotent` | src/cli/normalize-cli-options.js:61-68 | ejecting twice is ejecting once |
| `CliOptions.SeedOutputDefaults` | src/cli/normalize-cli-options.js:208-212 | `outputTo` and `outputType` are always present, a caller value overrides the default, and every caller key is kept with its value |
| `CliOptions.SplitModuleSystems` | src/cli/normalize-cli-options.js:214-218 | one entry per comma-separated segment (commas + 1), in order, each being that segment trimmed and free of commas |
| `CliOptions.CustomRulesFileName` | src/cli/normalize-cli-options.js:102-114 | succeeds exactly when the path is readable, returns that path, and otherwise fails with `FileNotFound` naming that exact path |
| `CliOptions.FirstReadable` | src/cli/normalize-cli-options.js:117 | `find(fileExists)`: any result is a readable candidate, and there is no result exactly when no candidate is readable |
| `CliOptions.FirstReadableIsFirstMatch` | src/cli/normalize-cli-options.js:116-125 | a readable candidate with no readable candidate before it is the one found |
| `CliOptions.FirstReadableAt` | src/cli/normalize-cli-options.js:116-125 | the candidate found sits at an index that no readable candidate precedes |
| `CliOptions.DefaultRulesFileName` | src/cli/normalize-cli-options.js:116-125 | `find(fileExists)` over the search list: the result is the entry `FirstReadable` picks, so a readable entry with no readable entry before it, and an error (naming the default config file) happens exactly when no entry is readable |
| `CliOptions.RulesFileName` | src/cli/normalize-cli-options.js:127-137 | a string `validate` goes to the explicit-path check and any other value goes to the default search |
| `CliOptions.NormalizeValidationOption` | src/cli/normalize-cli-options.js:167-182 | without `validate` the result is exactly `{validate: false}`; with it, resolution and loader errors pass through unchanged, otherwise the result is the rules file, the rule set loaded from it (relative paths prefixed with `./`) and `validate: true` |
| `CliOptions.ExplicitRulesFile` | src/cli/normalize-cli-options.js:102-114 | with a string `validate`, an unreadable path gives `FileNotFound` of that path, and on success `rulesFile` is that path |
| `CliOptions.SearchedRulesFile` | src/cli/normalize-cli-options.js:116-125 | with a non-string `validate`, the chosen `rulesFile` is a readable search-list entry with no readable entry before it |
| `CliOptions.KnownViolationsFileName` | src/cli/normalize-cli-options.js:139-153 | the file is the string value or the default baseline name; success exactly when it is readable, otherwise `FileNotFound` naming it |
| `CliOptions.NormalizeKnownViolationsOption` | src/cli/normalize-cli-options.js:155-165 | without `ignoreKnown` the result is `{}`; otherwise it is `{knownViolationsFile: f}` exactly when `f` is readable, else `FileNotFound(f)` |
| `CliOptions.NormalizeProgress` | src/cli/normalize-cli-options.js:184-194 | the result has at most a `progress` key, present exactly when the option is present and truthy; `true` becomes `"cli-feedback"` and other truthy values pass through unchanged |
| `CliOptions.ProgressIdempotent` | src/cli/normalize-cli-options.js:184-194 | merging the progress result a second time changes nothing |
| `CliOptions.SetWrapperFileName` | src/cli/normalize-cli-options.js:74-79 | `_set` of `ruleSet.options.<name>.fileName`: the field gets the value; every other top-level key, every other wrapper entry, every other field of the entry and the rest of the rule set (its non-`options` keys) are unchanged; the entry gains no field other than `fileName` |
| `CliOptions.ConfigFileNameNormalized` | src/cli/normalize-cli-options.js:70-91 | the shorthand is gone; `fileName` is the shorthand's value when that is a non-empty string, else the default; an existing entry without a truthy `fileName` gets the default; with neither, the bag is unchanged; `ruleSet` is present exactly when it was or a shorthand was passed, stays a rule set, and keeps its non-`options` keys; all other keys, entries and fields are unchanged, and the entry gains no field other than `fileName` |
| `CliOptions.NormalizeConfigFileName` | src/cli/normalize-cli-options.js:70-91 | the clone-set-delete-then-default steps of the source produce exactly `ConfigFileNameNormalized` |
| `CliOptions.ConfigFileNameIdempotent` | src/cli/normalize-cli-options.js:70-91 | applying the wrapper normalisation twice equals applying it once, for any default |
| `CliOptions.PrepareOptions` | src/cli/normalize-cli-options.js:208-222 | fails only on a non-string `moduleSystems`; otherwise gives known keys with output defaults, `moduleSystems` split and trimmed, and `validate` equal to `config` when given, with every other passed option unchanged |
| `CliOptions.MergeNormalizedOptions` | src/cli/normalize-cli-options.js:224-226 | a validation error comes first, then a known-violations error; on success `validate` says whether validation ran, `rulesFile` is the resolved file and `ruleSet` exactly the rule set the loader returned for it, `progress` is canonical and `knownViolationsFile` resolved; a key whose stage did not run, and every other key, is as it was |
| `CliOptions.WrapperPasses` | src/cli/normalize-cli-options.js:228-242 | after the `webpackConfig`, `tsConfig` and `babelConfig` passes no shorthand remains; each wrapper with a shorthand or an entry gets its resolved `fileName` (the shorthand, the entry's own truthy one, or that wrapper's default), and one with neither still has no entry; every other field of the wrapper entries is unchanged and none gains a field other than `fileName`; every other `options` entry, the rule set's other keys and every other top-level key are unchanged; with no shorthand and no wrapper entry, the bag is unchanged |
| `CliOptions.NormalizeWrapperConfigs` | src/cli/normalize-cli-options.js:228-242 | the three `normalizeConfigFileName` calls, in the source's order and with its defaults, produce exactly `WrapperConfigsNormalized`, the function `WrapperPasses` is about |
| `CliOptions.NormalizeOptions` | src/cli/normalize-cli-options.js:204-245 | fails exactly when `moduleSystems` is not a string, or the rules file cannot be resolved or loaded, or the baseline is unreadable; the error is `NotAString`, the resolution error, the loader's own error passed through unchanged, or the baseline `FileNotFound`, in that order. On success: output defaults overridden by caller values; `validate` true exactly when `validate` or `config` was passed; the first matching rules file; the loaded rule set, whose `rules` and non-wrapper `options` entries are the loader's and whose wrapper entries are resolved as in `WrapperPasses` and gain no field other than `fileName`; a passed `ruleSet` with no shorthand passed and no wrapper entry in it, such as a string, kept exactly as passed; canonical `progress`; the baseline file; a passed `rulesFile` kept when validation did not run and a passed `knownViolationsFile` kept when `ignoreKnown` was not passed; no wrapper shorthand left; every other known option unchanged; no unknown key |
| `CliOptions.LoadedRuleSetKept` | src/cli/normalize-cli-options.js:167-182 | when validation ran, the result's `ruleSet` is a rule set whose `rules` and every non-wrapper `options` entry are exactly what the loader returned for the rules file |
| `CliOptions.DepcruiseResultKeys` | src/cli/normalize-cli-options.js:204-207 | with the default option list (lines 10-36) the caller cannot pass `rulesFile`, `ruleSet` or `knownViolationsFile`, so `rulesFile` is present exactly when `validate` is true, `knownViolationsFile` exactly when `ignoreKnown` was passed, and `ruleSet` exactly when validation ran or a wrapper shorthand was passed |
| `ModuleAttributes.LeadingProtocol` | test/extract/utl/extract-module-attributes.spec.mjs:11-22 | the result is a scheme token plus `:` that prefixes the input, and when there is none, no prefix of the input is one |
| `ModuleAttributes.ExtractModuleAttributes` | test/extract/utl/extract-module-attributes.spec.mjs:5-54 | without a protocol the module is the whole input; a protocol is recognised and prefixes the input; a media type appears only with `data:`, is non-empty and holds no comma |
| `ModuleAttributes.RenderExtract` | test/extract/utl/extract-module-attributes.spec.mjs:5-54 | putting protocol, media type plus comma, and module back together gives the input for every string |
| `ModuleAttributes.ExtractCanonical` | test/extract/utl/extract-module-attributes.spec.mjs:5-54 | every result of the function is canonical: a recognised protocol or none, a media type only on `data:` and non-empty without a comma, a protocol-free module that does not start with a recognised protocol, and a `data:` module without media type that has no comma or starts with one |
| `ModuleAttributes.ExtractRender` | test/extract/utl/extract-module-attributes.spec.mjs:5-54 | every canonical attribute triple is recovered from its rendering; with `ExtractCanonical`, the canonical triples are exactly the ones the function produces |
| `ModuleAttributes.ExtractWithoutProtocol` | test/extract/utl/extract-module-attributes.spec.mjs:5-9 | a specifier with no protocol prefix is returned as `{module}` alone |
| `ModuleAttributes.ExtractRecognisedProtocol` | test/extract/utl/extract-module-attributes.spec.mjs:11-16 | a recognised protocol other than `data:` is split off with its colon and the rest is the module |
| `ModuleAttributes.ExtractUnrecognisedProtocol` | test/extract/utl/extract-module-attributes.spec.mjs:18-22 | an unrecognised scheme-like prefix leaves the whole input as the module, with no protocol |
| `ModuleAttributes.ExtractDataWithMimeType` | test/extract/utl/extract-module-attributes.spec.mjs:30-38 | `data:<type>,<payload>` with a non-empty media type gives protocol, media type and the payload after the first comma |
| `ModuleAttributes.ExtractDataEmptyMimeType` | test/extract/utl/extract-module-attributes.spec.mjs:40-45 | `data:,<payload>` has no media type and the module keeps the comma |
| `ModuleAttributes.ExtractDataWithoutComma` | test/extract/utl/extract-module-attributes.spec.mjs:47-54 | a `data:` URI without a comma has no media type and the module is everything after `data:` verbatim |
| `ModuleAttributes.LeavesPlainSpecifierAlone` | test/extract/utl/extract-module-attributes.spec.mjs:5-9 | `"protodash"` gives `{module: "protodash"}` |
| `ModuleAttributes.ExtractsNodeProtocol` | test/extract/utl/extract-module-attributes.spec.mjs:11-16 | `"node:fs"` gives `{module: "fs", protocol: "node:"}` |
| `ModuleAttributes.LeavesUnknownProtocolAlone` | test/extract/utl/extract-module-attributes.spec.mjs:18-22 | `"nod:fs"` gives `{module: "nod:fs"}` |
| `ModuleAttributes.ExtractsEmptySpecifier` | test/extract/utl/extract-module-attributes.spec.mjs:24-28 | `""` gives `{module: ""}` |
| `ModuleAttributes.ExtractsDataMimeType` | test/extract/utl/extract-module-attributes.spec.mjs:30-38 | `"data:application/json,gegevens.json"` gives module `gegevens.json`, protocol `data:`, mimeType `application/json` |
| `ModuleAttributes.KeepsCommaOfEmptyMimeType` | test/extract/utl/extract-module-attributes.spec.mjs:40-45 | `"data:,gegevens.json"` gives module `,gegevens.json`, protocol `data:`, no mimeType |
| `ModuleAttributes.KeepsMistypedSeparator` | test/extract/utl/extract-module-attributes.spec.mjs:47-54 | `"data:application/json;gegevens.json"` gives module `application/json;gegevens.json`, protocol `data:`, no mimeType |
| `ModuleAttributes.SplitsAtFirstComma` | test/extract/utl/extract-module-attributes.spec.mjs:30-38 | for an input the tests do not cover: `"data:text/plain;base64,QQ"` gives module `QQ`, protocol `data:`, mimeType `text/plain;base64` (the media type ends at the first comma) |
| `ModuleAttributes.KeepsEmptyPayload` | test/extract/utl/extract-module-attributes.spec.mjs:30-38 | for an input the tests do not cover: `"data:a,"` gives an empty module, protocol `data:`, mimeType `a` |

## Left out

- `fileExists` (`fs.accessSync`) is not modelled as I/O. A path counts as existing when it is in `Env.readable`.
- `loadConfig` is the parameter `Env.load`, a function whose errors pass through unchanged. `path.isAbsolute` is the parameter `Env.isAbsolute`.
- The constants of the defaults module are the parameter `Defaults`. The file defining them is not part of this model.
- lodash `_get`/`_set`/`_has`/`_clone` on dotted string paths are replaced by typed access to `ruleSet.options[<name>]["fileName"]`. General path parsing is not modelled.
- Error message wording and the `Error` vs `TypeError` distinction are not modelled. Each error is a `FileNotFound(path)`, `NotAString(option)` or loader error.
- JavaScript values are reduced to the `Value` type:
  - numbers, `null` and `undefined` are `Other`, which records only whether the value is truthy;
  - a `ruleSet` that is not a rule set (a string, a number, an array) is kept as it is while no wrapper shorthand is passed. When one is, the model replaces it with a fresh rule set. lodash does that for a string or number but would attach `options` to an array or other object;
  - a rule set without an `options` key is not told apart from one with `options: {}`;
  - a wrapper entry is always an object;
  - every entry of `RuleSet.options` is an object, so a loaded rule set with a scalar `options` entry cannot be represented. The pipeline only reads and writes the wrapper entries and passes every other entry through untouched.
- `ConfigFileNameNormalized` and `NormalizeConfigFileName` require the shorthand name to differ from `ruleSet`. The pipeline only passes the three wrapper names, so this does not restrict it.
- Cloning and aliasing of the JavaScript objects are not modelled. `_clone` (src/cli/normalize-cli-options.js:71) is shallow, so `_set` writes `fileName` in place into the `ruleSet` object the caller passed or the loader returned. Every bag here is an immutable map, so the model does not capture that mutation of a shared object.
- The commander argument parser and the chai test harness are not modelled.
- The body of `src/extract/utl/extract-module-attributes.js` is not part of this model. The tests fix its behaviour on their inputs. For inputs the tests do not cover, the model chooses:
  - the recognised-protocol list is a parameter;
  - a scheme token is a letter followed by letters and digits;
  - a media type is split off only for `data:`;
  - the media type ends at the first comma, so `data:text/plain;base64,QQ` has media type `text/plain;base64` and module `QQ` (`SplitsAtFirstComma`);
  - `data:a,` has media type `a` and an empty module (`KeepsEmptyPayload`);
  - `node:` alone has protocol `node:` and an empty module (`ExtractRecognisedProtocol` with an empty rest).
