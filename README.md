# MDWFutils bookkeeping core, modelled in Dafny

MDWFutils keeps the books for lattice-QCD ensembles that are generated and measured on SLURM clusters:
- **Ensembles.** An ensemble is a directory of gauge configurations with its physics parameters. Each has an integer id, a unique directory and an optional unique nickname.
- **Operations.** An operation is a job run on an ensemble (HMC, smearing, GLU, WIT, meson two-point and so on). It has a status, SLURM details and free parameters.
- **Parameter handling.** Job inputs and batch scripts are built from parameters. Those come from `key=value` tokens on the command line, stored defaults and per-job schemas.

This project models that bookkeeping layer and its parameter handling. The two are modelled on in-memory maps, sets and sequences, and properties of them are proved. The modules follow the program:

- **Stores.**
  - `Sqlite` is the SQLite backend, as a class `Store` over four tables held as maps.
  - `LegacyDb` covers the functions of `db.py` that differ from it.
  - `Mongo` is the MongoDB backend, as a class `Backend` over documents with dotted-path `$set` and `$unset`.
  - `Migrate` is the one-time SQLite-to-MongoDB migration.
- **Directory model.**
  - `EnsemblePath` and `Pattern` build the ensemble directory from physics keys and parse it back.
  - `AddEnsemble`, `Promote` and `Nickname` are the commands that create, promote and name ensembles.
  - `ScanConfigs` covers configuration-number scanning and increment inference.
  - `FileTree` holds the directories the commands create and move.
- **Parameter plumbing.**
  - `Text`, `PyDict` and `Nested` model Python's strings, ordered dicts and nested dicts.
  - `Params`, `Config`, `Components`, `Schema`, `HelpGenerator` and `Validators` parse, merge, default, validate and cast parameters.
  - `Zv`, `Wit`, `Glu` and `LineScan` cover the WIT and GLU input formats.
  - `Geometry` and `Meson2pt` cover the process-grid checks.
  - `Hmc` and `HmcScript` cover the HMC XML and batch-script parameters.
  - `Registry` is the generator registry.
  - `Command` covers the command base class's output-path choice, parameter merge and backend selection.
- **Batch-script shell code.**
  - `SlurmTrap` is the exit trap that records a job's final status.
  - `HmcHelpers` chooses the latest usable checkpoint.
  - `HmcResubmit` decides resubmission.

Work on tables and collections is written as classes whose methods change their fields. Each such method is proved against a specification function of the old state. Pure transformations are functions with lemmas.

External effects are parameters of the members that need them:
- the clock;
- the current user, the host name and the environment;
- the answers of `sacct` and `scontrol`;
- `Path.resolve`;
- the exit status of a subprocess;
- the contents of files read from disk.

## Model

| member | source | states |
|---|---|---|
| Geometry.ParseInts | MDWFutils/jobs/utils.py:50 | the parts parse exactly when every part is an integer literal after stripping, and the values are the parts' values in order |
| Geometry.ParseOgeom | MDWFutils/jobs/utils.py:47-58 | accepted exactly when the comma-separated parts all parse; an accepted value has four components, all positive, equal to the parsed parts |
| Geometry.ParseOgeomRoundTrip | MDWFutils/jobs/utils.py:47-58 | four positive integers written with commas parse back to themselves |
| Geometry.ValidateGeometry | MDWFutils/jobs/utils.py:61-82 | an accepted grid has four components and each local extent times its grid size is the lattice extent (L, L, L, T) and is even |
| Geometry.FloorDivExact | MDWFutils/jobs/utils.py:71-76 | for a positive divisor, `a // b * b == a` exactly when the remainder is zero |
| Geometry.ValidateGeometryExact | MDWFutils/jobs/utils.py:67-82 | for positive components, the grid is accepted exactly when each component divides its extent into an even number of sites, and lgeom is the quotients |
| Geometry.ValidateGeometryVolume | MDWFutils/jobs/utils.py:76-82 | an accepted grid tiles the lattice: local volume times the number of ranks is L·L·L·T |
| Geometry.MissingKeys | MDWFutils/jobs/utils.py:101 | a key is reported exactly when it is required and absent |
| Geometry.EnsureKeys | MDWFutils/jobs/utils.py:99-103 | succeeds exactly when every key is present |
| Geometry.BlankKeys | MDWFutils/jobs/utils.py:120-123 | a key is listed exactly when it is required and absent, None or "" |
| Geometry.RequireAll | MDWFutils/jobs/utils.py:106-134 | succeeds exactly when no required key is blank; the result has exactly the required keys, in order, with the given values |
| Config.ParseParams | MDWFutils/config.py:109-119 | the parsed dict is well formed, its keys hold no `=` and its keys and values hold no whitespace |
| Config.ParseParamsRender | MDWFutils/config.py:109-128 | writing a clean dict as space-separated `key=value` tokens and parsing it back gives the same dict, order included |
| Config.MergeParamsMeaning | MDWFutils/config.py:121-128 | the merged string reads back as the stored parameters updated by the command-line ones: every key of either side, the command-line value on a clash, stored keys first |
| Config.MergeParams | MDWFutils/config.py:121-128 | the merged string reads back as the stored parameters updated by the command-line ones |
| Config.MergeParamsEmpty | MDWFutils/config.py:111-128 | two empty parameter strings merge to the empty string |
| Config.SetFields | MDWFutils/config.py:231-238 | each given string is set under its own key, no other key is added and every other entry keeps its value |
| Config.SaveOperationConfig | MDWFutils/config.py:219-241 | a save that succeeds leaves a well-formed configuration tree |
| Config.SaveThenGet | MDWFutils/config.py:84-95 | after a save that sets something, reading that variant back gives a dict holding the strings just saved under their keys |
| Config.GetOperationConfig | MDWFutils/config.py:84-95 | a result other than `{}` is the operation entry (no variant asked) or the variant's entry (variant asked); a variant present in a dict operation is always returned; a well-formed configuration gives a well-formed result |
| Config.SaveFrame | MDWFutils/config.py:222-238 | a save leaves every other operation, and every other variant of the same operation, as it was |
| Config.ParamsAreStringsMeaning | MDWFutils/config.py:270-274 | the parameter check passes exactly when every expected parameter present in the mode is a string |
| Config.CheckHmcModesMeaning | MDWFutils/config.py:262-274 | the loop over HMC modes passes exactly when every known mode present is a dict whose expected parameters are strings |
| Config.CheckOpsMeaning | MDWFutils/config.py:255-274 | the loop over operations passes exactly when every entry satisfies the per-operation rule |
| Config.ValidateConfig | MDWFutils/config.py:243-276 | for a tree whose dicts are well formed, `validate_config` holds exactly when the configuration is a dict whose known operations are dicts and whose HMC modes are dicts with string `xml_params`/`job_params` |
| Components.EnsembleResolver.constructor | MDWFutils/cli/components.py:17-18 | the resolver keeps the backend it is given |
| Components.EnsembleResolver.Resolve | MDWFutils/cli/components.py:20-24 | a result is a stored ensemble that the identifier names (by integer id, or by directory or nickname), together with its stored document; there is a result exactly when some stored ensemble is so named; an integer id that is stored wins; otherwise EnsembleNotFoundError carrying the identifier |
| Components.NoneNamed | MDWFutils/cli/components.py:20-23 | when no id, directory or nickname matches, no stored ensemble is named, so the not-found error is the right answer |
| Components.StoredNonEmpty | MDWFutils/cli/components.py:22 | a stored ensemble document is never empty, so the `if not ensemble` test fails only when nothing was found |
| Components.Parse | MDWFutils/cli/components.py:36-43 | the loop builds the same dict as the whitespace split followed by the token fold, with `None` read as "" |
| Components.ParseNothing | MDWFutils/cli/components.py:39 | `None` and "" parse to the empty dict |
| Components.Merge | MDWFutils/cli/components.py:45-49 | the merged map is the defaults overridden by the overrides: an override wins on a shared key, every other default is kept; the new keys follow the defaults' keys in the overrides' order |
| Params.Kv | MDWFutils/cli/components.py:40-41 | a token without `=` gives nothing; otherwise the key holds no `=` and key, `=` and value put back together give the token |
| Params.AddToken | MDWFutils/cli/components.py:40-42 | one loop step keeps the dict well formed |
| Params.AddTokenAt | MDWFutils/cli/components.py:40-42 | after one step a key is present exactly when it was or the token carries it; the token's value wins for its key; other keys keep their values |
| Params.ParsedSnoc | MDWFutils/cli/components.py:39-42 | parsing one more token is one more loop step |
| Params.ParsedHas | MDWFutils/cli/components.py:39-42 | a key is in the parsed dict exactly when some token carries it |
| Params.ParsedLast | MDWFutils/cli/components.py:42 | the last token carrying a key decides its value: later duplicates win |
| Params.ParsedClean | MDWFutils/config.py:115-118 | tokens without whitespace give keys without `=` and keys and values without whitespace |
| Params.ParseWords | MDWFutils/config.py:115-118 | any string splits and parses to a well-formed dict whose keys and values hold no whitespace and whose keys hold no `=` |
| Params.Tokens | MDWFutils/config.py:128 | there is one `key=value` token per key of the dict, in its order |
| Params.ParsedTokens | MDWFutils/config.py:115-128 | parsing the tokens of a clean dict gives the dict back, order included |
| Params.KvToken | MDWFutils/config.py:117 | splitting `k=v` at the first `=` gives `(k, v)` when `k` holds no `=` |
| Params.Render | MDWFutils/config.py:115-128 | writing a clean dict as a space-joined string and parsing it back gives the dict |
| Schema.Cast | MDWFutils/jobs/schema.py:201-205 | a cast to `str` always succeeds with the value's text; a successful cast to `int` gives an integer |
| Schema.CastIntRoundTrip | MDWFutils/jobs/schema.py:202 | casting an integer's text, or the integer itself, to `int` gives that integer back |
| Schema.Reversed | MDWFutils/jobs/schema.py:50-55 | reversing keeps the length |
| Schema.DeduplicateSchema | MDWFutils/jobs/schema.py:38-55 | the backwards walk with a seen-set gives the entries that have no later entry of the same name, in order; `None` or an empty schema gives `[]` |
| Schema.DedupNames | MDWFutils/jobs/schema.py:47-55 | every name survives exactly once: the survivors' names are distinct and are the input's names |
| Schema.DedupKeepsLast | MDWFutils/jobs/schema.py:47-55 | the last entry of each name survives |
| Schema.DedupOnlyLast | MDWFutils/jobs/schema.py:47-55 | every survivor is the last entry of its name |
| Schema.DedupOrder | MDWFutils/jobs/schema.py:50-55 | the survivors keep their original relative order |
| Schema.DedupSchemaDistinct | MDWFutils/jobs/schema.py:138-139 | the schemas `build` applies have distinct names |
| Schema.Raw | MDWFutils/jobs/schema.py:190-194 | a provided non-None value is read, otherwise the default |
| Schema.ApplyOne | MDWFutils/jobs/schema.py:189-212 | one definition's outcome: missing exactly when it is required with neither value nor default; skipped exactly when optional with neither; a value exactly when the cast succeeds and lands in the choices (if any), stored as text when `cast_to_str` |
| Schema.ProvidedBeatsDefault | MDWFutils/jobs/schema.py:190-194 | with a provided non-None value the default plays no part |
| Schema.Step | MDWFutils/jobs/schema.py:189-212 | one loop step keeps the typed dict well formed |
| Schema.FoldClean | MDWFutils/jobs/schema.py:189-223 | the loop ends with no error and nothing missing exactly when every outcome is a skip or a value |
| Schema.FoldTyped | MDWFutils/jobs/schema.py:189-212 | with distinct names, a name is in the typed dict exactly when its outcome is a value, and then holds that value |
| Schema.FoldLast | MDWFutils/jobs/schema.py:189-212 | the last definition decides its own name; any other name is as the earlier definitions left it |
| Schema.StepTyped | MDWFutils/jobs/schema.py:212 | one step changes the typed dict only for a value, at its name |
| Schema.FoldAbsent | MDWFutils/jobs/schema.py:189-212 | a name no definition has never enters the typed dict |
| Schema.FoldKeys | MDWFutils/jobs/schema.py:189-212 | the typed dict holds only names of the schema |
| Schema.FoldMeaning | MDWFutils/jobs/schema.py:189-226 | the result is a dict exactly when every outcome is accepted; it then holds, for each definition, its value when it has one and nothing else |
| Schema.Finish | MDWFutils/jobs/schema.py:214-226 | the call returns exactly when there is no error and nothing missing, and then returns the typed dict |
| Schema.Outcomes | MDWFutils/jobs/schema.py:189-212 | one outcome per definition, each the definition's own outcome |
| Schema.ApplySchema | MDWFutils/jobs/schema.py:183-226 | the loop with its three accumulators computes the specification of `_apply_schema` |
| Schema.ApplySchemaMeaning | MDWFutils/jobs/schema.py:183-226 | on distinct names, `_apply_schema` succeeds exactly when no definition is missing or rejected, and then holds the cast value of every definition that has one and nothing else |
| Schema.MissingRequiredFails | MDWFutils/jobs/schema.py:196-224 | a required parameter with neither value nor default makes it raise |
| Schema.ChoiceViolationFails | MDWFutils/jobs/schema.py:208-224 | a cast value outside the declared choices makes it raise |
| Schema.Normalize | MDWFutils/jobs/schema.py:127-131 | job parameters given alone and holding none of the typical job keys are moved to the input side; otherwise both are kept |
| Schema.Layered | MDWFutils/jobs/schema.py:152-155 | the layered context is a well-formed dict |
| Schema.LayeredValues | MDWFutils/jobs/schema.py:152-155 | computed values beat input values, which beat job values |
| Schema.BuildMeaning | MDWFutils/jobs/schema.py:112-157 | `build` fails for an unknown ensemble or a schema error; otherwise it returns the de-duplicated schemas' values layered under the computed values |
| Schema.Build | MDWFutils/jobs/schema.py:112-157 | an unknown ensemble is `EnsembleNotFoundError`; on success every computed value reaches the context unchanged |
| HelpGenerator.Lookup | MDWFutils/cli/help_generator.py:36 | a provided string is read, otherwise the default |
| HelpGenerator.Judge | MDWFutils/cli/help_generator.py:35-54 | one definition: required with no value is the "Missing required parameter" error; optional with no value is skipped; a value is kept exactly when it is among the choices (if any) as given and its cast succeeds, and then the cast value is kept |
| HelpGenerator.Judgements | MDWFutils/cli/help_generator.py:35-54 | one judgement per definition, in schema order |
| HelpGenerator.ValidateAndCast | MDWFutils/cli/help_generator.py:31-59 | the loop computes the specification: all errors in schema order raised together, else the typed dict |
| HelpGenerator.ValidateMeaning | MDWFutils/cli/help_generator.py:31-59 | on distinct names, validation succeeds exactly when no definition yields an error, and the typed dict then holds the cast value of every definition that has a value and nothing else |
| HelpGenerator.RawChoicesDiffer | MDWFutils/cli/help_generator.py:45-52 | the choices are compared with the raw string before the cast, so an `int` parameter with integer choices refuses a value that `_apply_schema` accepts |
| HelpGenerator.RawChoiceRefused | MDWFutils/cli/help_generator.py:45-49 | an `int` parameter with integer choices refuses the text of a listed integer |
| HelpGenerator.Parts | MDWFutils/cli/help_generator.py:20-26 | a help line has the name and help, then one marker for each of required, default and choices that applies; "(required)" appears exactly for a required parameter |
| HelpGenerator.HelpLines | MDWFutils/cli/help_generator.py:18-27 | a heading line, then one line per parameter in order |
| HelpGenerator.GenerateHelp | MDWFutils/cli/help_generator.py:15-28 | an empty schema gives ""; otherwise the lines joined by newlines |
| Validators.PosFloat | MDWFutils/schemas/validators.py:13-18 | an accepted float field is a positive decimal |
| Validators.PosInt | MDWFutils/schemas/validators.py:15-20 | an accepted int field is a strictly positive integer |
| Validators.Failed | MDWFutils/schemas/validators.py:10-20 | no field is reported exactly when every field is present and valid |
| Validators.ValidatePhysics | MDWFutils/schemas/validators.py:10-20 | a physics document validates exactly when all eight fields are present and valid; the result then has `Ls`, `L`, `T` strictly positive integers and the others positive |
| Validators.ParseStatus | MDWFutils/schemas/validators.py:28 | a status is accepted exactly when it is the whole text TUNING or PRODUCTION, and maps to the matching value |
| Validators.OptStr | MDWFutils/schemas/validators.py:29-30 | an absent or None field gives None |
| Validators.ValidateEnsembleCreate | MDWFutils/schemas/validators.py:23-30 | a payload validates exactly when it has a string directory, valid physics, an accepted status and optional string description and nickname; description and nickname default to None |
| ScanConfigs.Increment | MDWFutils/cli/commands/scan_configs.py:41-54 | fewer than two values, or a first difference that is not positive, give None; an answer is the first difference |
| ScanConfigs.InferIncrement | MDWFutils/cli/commands/scan_configs.py:41-54 | the loop that stops at the first differing step computes the specification |
| ScanConfigs.IncrementMeaning | MDWFutils/cli/commands/scan_configs.py:46-54 | the increment is `d` exactly when there are at least two values and they run from the first in steps of `d > 0` |
| ScanConfigs.ProgressionOfSteps | MDWFutils/cli/commands/scan_configs.py:51-53 | equal consecutive differences `d` put every value at first + i·d |
| ScanConfigs.Insert | MDWFutils/cli/commands/scan_configs.py:38 | inserting into a sorted duplicate-free list keeps it so and adds exactly the new value |
| ScanConfigs.SortedUnique | MDWFutils/cli/commands/scan_configs.py:38 | `sorted(set(xs))` is sorted, free of duplicates and holds exactly the values of `xs` |
| ScanConfigs.ExtractNumbers | MDWFutils/cli/commands/scan_configs.py:17-38 | a missing directory gives `[]`; otherwise the result is sorted, free of duplicates and holds exactly the last digit runs of the regular files whose names contain `lat` |
| ScanConfigs.ConfigNumberOf | MDWFutils/cli/commands/scan_configs.py:29-35 | a file named by a `lat` prefix followed by a number contributes that number |
| ScanConfigs.Summary | MDWFutils/cli/commands/scan_configs.py:385-391 | no numbers store nothing; otherwise the total is the count and the increment is the inferred one |
| ScanConfigs.SummaryBounds | MDWFutils/cli/commands/scan_configs.py:388-389 | on the sorted numbers, first and last are the smallest and largest |
| ScanConfigs.ExtractSignature | MDWFutils/cli/commands/scan_configs.py:57-76 | there is a signature exactly when all eight patterns match, and it holds their captures |
| ScanConfigs.SignatureKey0 | MDWFutils/cli/commands/scan_configs.py:66 | the `beta` pattern finds its value in an ensemble path built from whole values under any marker-free root (no pattern prefix in it followed by a digit, as in `/global/cfs/cdirs/m2986/cosmon/mdwf`) |
| ScanConfigs.SignatureKey1 | MDWFutils/cli/commands/scan_configs.py:67 | the `b` pattern finds its value in an ensemble path built from whole values under any marker-free root (no pattern prefix in it followed by a digit, as in `/global/cfs/cdirs/m2986/cosmon/mdwf`) |
| ScanConfigs.SignatureKey2 | MDWFutils/cli/commands/scan_configs.py:68 | the `Ls` pattern finds its value in an ensemble path built from whole values under any marker-free root (no pattern prefix in it followed by a digit, as in `/global/cfs/cdirs/m2986/cosmon/mdwf`) |
| ScanConfigs.SignatureKey3 | MDWFutils/cli/commands/scan_configs.py:69 | the `mc` pattern finds its value in an ensemble path built from whole values under any marker-free root (no pattern prefix in it followed by a digit, as in `/global/cfs/cdirs/m2986/cosmon/mdwf`) |
| ScanConfigs.SignatureKey4 | MDWFutils/cli/commands/scan_configs.py:70 | the `ms` pattern finds its value in an ensemble path built from whole values under any marker-free root (no pattern prefix in it followed by a digit, as in `/global/cfs/cdirs/m2986/cosmon/mdwf`) |
| ScanConfigs.SignatureKey5 | MDWFutils/cli/commands/scan_configs.py:71 | the `ml` pattern finds its value in an ensemble path built from whole values under any marker-free root (no pattern prefix in it followed by a digit, as in `/global/cfs/cdirs/m2986/cosmon/mdwf`) |
| ScanConfigs.SignatureKey6 | MDWFutils/cli/commands/scan_configs.py:72 | the `L` pattern finds its value in an ensemble path built from whole values under any marker-free root (no pattern prefix in it followed by a digit, as in `/global/cfs/cdirs/m2986/cosmon/mdwf`) |
| ScanConfigs.SignatureKey7 | MDWFutils/cli/commands/scan_configs.py:73 | the `T` pattern finds its value in an ensemble path built from whole values under any marker-free root (no pattern prefix in it followed by a digit, as in `/global/cfs/cdirs/m2986/cosmon/mdwf`) |
| ScanConfigs.SignatureRoundTrip | MDWFutils/cli/commands/scan_configs.py:57-76 | the signature of an ensemble path built from whole-number values under a marker-free root (no `b`, `Ls`, `mc`, `ms`, `ml`, `L` or `T` in it directly followed by a digit) is those values |
| AddEnsemble.Collect | MDWFutils/cli/commands/add_ensemble.py:98-102 | after the first `n` patterns the dict holds only those patterns' keys |
| AddEnsemble.CollectAt | MDWFutils/cli/commands/add_ensemble.py:99-102 | after the first `n` patterns a key is present exactly when its pattern matched, with the group of the leftmost match |
| AddEnsemble.ParseParamsFromPath | MDWFutils/cli/commands/add_ensemble.py:82-103 | only the eight required keys can appear |
| AddEnsemble.ParsedFromPath | MDWFutils/cli/commands/add_ensemble.py:88-103 | each required key is read from the path exactly when its pattern matches, with the group of the leftmost match |
| AddEnsemble.PathRoundTrip | MDWFutils/cli/commands/add_ensemble.py:82-138 | a directory built from whole values under a marker-free root (no `b`, `Ls`, `mc`, `ms`, `ml`, `L` or `T` in it directly followed by a digit) reads back to exactly those values |
| AddEnsemble.PathRoundTripKeys | MDWFutils/cli/commands/add_ensemble.py:82-138 | such a directory, under a marker-free root, yields every required key and no other |
| AddEnsemble.KeyRoundTrip | MDWFutils/cli/commands/add_ensemble.py:89-136 | the search for key `i` finds exactly its value in a path built under a marker-free root |
| AddEnsemble.KeyRoundTrip0 | MDWFutils/cli/commands/add_ensemble.py:89-133 | the `beta` search finds its value in a built path under any marker-free root (no pattern prefix in it followed by a digit) |
| AddEnsemble.KeyRoundTrip1 | MDWFutils/cli/commands/add_ensemble.py:90-133 | the `b` search, anchored by `Ls`, finds its value in a built path under any marker-free root (no pattern prefix in it followed by a digit) |
| AddEnsemble.BetaBeforeB | MDWFutils/cli/commands/add_ensemble.py:90-133 | the `b…Ls` pattern cannot match in the `beta` layer |
| AddEnsemble.KeyRoundTrip2 | MDWFutils/cli/commands/add_ensemble.py:91-133 | the `Ls` search finds its value in a built path under any marker-free root (no pattern prefix in it followed by a digit) |
| AddEnsemble.KeyRoundTrip3 | MDWFutils/cli/commands/add_ensemble.py:92-134 | the `mc` search finds its value in a built path under any marker-free root (no pattern prefix in it followed by a digit) |
| AddEnsemble.KeyRoundTrip4 | MDWFutils/cli/commands/add_ensemble.py:93-134 | the `ms` search finds its value in a built path under any marker-free root (no pattern prefix in it followed by a digit) |
| AddEnsemble.KeyRoundTrip5 | MDWFutils/cli/commands/add_ensemble.py:94-134 | the `ml` search finds its value in a built path under any marker-free root (no pattern prefix in it followed by a digit) |
| AddEnsemble.KeyRoundTrip6 | MDWFutils/cli/commands/add_ensemble.py:95-135 | the `L` search finds its value in a built path under any marker-free root (no pattern prefix in it followed by a digit) |
| AddEnsemble.KeyRoundTrip7 | MDWFutils/cli/commands/add_ensemble.py:96-135 | the `T` search finds its value in a built path under any marker-free root (no pattern prefix in it followed by a digit) |
| AddEnsemble.FirstBad | MDWFutils/cli/commands/add_ensemble.py:110-113 | there is no bad token exactly when every token holds `=`; a bad position is the first token without `=` |
| AddEnsemble.PairsMeaning | MDWFutils/cli/commands/add_ensemble.py:108-115 | the pairs are refused exactly when a token has no `=`; otherwise a key is present exactly when a token names it |
| AddEnsemble.ParsePairs | MDWFutils/cli/commands/add_ensemble.py:108-115 | the loop that returns at the first token without `=` computes the specification |
| AddEnsemble.FirstBadAt | MDWFutils/cli/commands/add_ensemble.py:110-113 | a token without `=` after good ones is the first bad one |
| AddEnsemble.Values | MDWFutils/cli/commands/add_ensemble.py:132-136 | the eight values are the dict's entries for the required keys, in order |
| AddEnsemble.WithInferred | MDWFutils/cli/commands/add_ensemble.py:120-125 | the parameters after `--directory` stay a well-formed dict |
| AddEnsemble.Prepare | MDWFutils/cli/commands/add_ensemble.py:117-145 | as intended: never a KeyError; roots are created only for a built directory that is ready; the outcome is "missing" exactly when a required key is absent from the (possibly inferred) parameters, and "ready" carries every required key |
| AddEnsemble.BuiltPathKeyError | MDWFutils/cli/commands/add_ensemble.py:127-145 | `-p "beta=6.0"` without `--directory`: as written both roots are created and the formatting raises `KeyError('b')`; as intended the missing keys are reported and nothing is created |
| AddEnsemble.PrepareAgrees | MDWFutils/cli/commands/add_ensemble.py:117-145 | apart from that KeyError the code as written and the intended step agree |
| AddEnsemble.MarkerFreeRoot | MDWFutils/cli/commands/add_ensemble.py:128-137 | a marker-free base path gives marker-free `TUNING` and `ENSEMBLES` roots |
| AddEnsemble.CosmonBaseMarkerFree | MDWFutils/jobs/slurm_update_trap.py:149 | the production base directory `/global/cfs/cdirs/m2986/cosmon/mdwf` is marker-free: its digits `2986` follow an `m` |
| AddEnsemble.BuiltDir | MDWFutils/cli/commands/add_ensemble.py:127-138 | without `--directory` and with every key given, the directory is the formatted relative path under ENSEMBLES for PRODUCTION, TUNING otherwise, and both roots are made |
| AddEnsemble.BuiltDirRoundTrip | MDWFutils/cli/commands/add_ensemble.py:82-138 | under a marker-free base path, a directory built from whole values reads back to the given values |
| AddEnsemble.CosmonRoundTrip | MDWFutils/cli/commands/add_ensemble.py:82-138 | in particular, a directory built from whole values under `/global/cfs/cdirs/m2986/cosmon/mdwf` reads back to the given values |
| AddEnsemble.MakeEnsembleDirs | MDWFutils/cli/commands/add_ensemble.py:147-149 | the ensemble directory and its `log_hmc`, `jlog`, `cnfg` and `slurm` sub-directories are added and nothing else |
| AddEnsemble.Finish | MDWFutils/cli/commands/add_ensemble.py:159-174 | PRODUCTION is set when asked, a non-empty nickname is stored, and the directory, description, operations and other parameters are kept |
| AddEnsemble.Record | MDWFutils/cli/commands/add_ensemble.py:151-176 | the store stays valid; it succeeds exactly when the directory is known or no stale parameter row sits under the new id; a new ensemble gets the next id, the description, TUNING unless PRODUCTION, and the parameters; a failure changes nothing |
| AddEnsemble.DoAdd | MDWFutils/cli/commands/add_ensemble.py:106-176 | a bad pair exits 1 with nothing changed; otherwise the folders created are exactly the as-written plan's, a directory not ready exits 1 with the store unchanged, and success leaves the ensemble recorded |
| AddEnsemble.PreparedReady | MDWFutils/cli/commands/add_ensemble.py:117-145 | the as-written step creates no roots or both, and a ready directory is non-empty with a valid parameter dict |
| EnsemblePath.PathLayers | MDWFutils/cli/commands/add_ensemble.py:132-138 | the full directory `root/b<beta>/b<b>Ls<Ls>/mc<mc>/ms<ms>/ml<ml>/L<L>/T<T>` is the markers alternating with the eight values |
| EnsemblePath.MarkerNames | MDWFutils/cli/commands/add_ensemble.py:133-135 | the markers are `root/b`, `/b`, `Ls`, `/mc`, `/ms`, `/ml`, `/L`, `/T` |
| EnsemblePath.PathSearch | MDWFutils/cli/commands/add_ensemble.py:99-102 | searching a built path for a pattern whose prefix ends layer `i`'s marker, and no earlier layer's whose match would pass the suffix, finds layer `i`'s value |
| Pattern.DigitRun | MDWFutils/cli/commands/add_ensemble.py:89-96 | `\d+` from a position reads the maximal run of digits there |
| Pattern.SearchNone | MDWFutils/cli/commands/add_ensemble.py:100-101 | `re.search` finding nothing means no position has a match |
| Pattern.SearchLeftmost | MDWFutils/cli/commands/add_ensemble.py:100-102 | `re.search` finding a group finds it at the leftmost position that matches |
| Pattern.LastRun | MDWFutils/cli/commands/scan_configs.py:31-35 | `re.findall(r"(\d+)", name)[-1]` is absent exactly when the name holds no digit, and is otherwise a non-empty run of digits |
| Pattern.LastRunSuffix | MDWFutils/cli/commands/scan_configs.py:31-35 | a run of digits after a non-digit at the end of a name is the run found |
| Pattern.LayersSearch | MDWFutils/cli/commands/add_ensemble.py:99-102 | on markers alternating with numbers, the layers before `i` are passed over and layer `i` gives its number |
| Promote.ConfirmedMeaning | MDWFutils/cli/commands/promote_ensemble.py:102-103 | the prompt accepts exactly `y` or `yes` in any mix of cases |
| Promote.DecideGo | MDWFutils/cli/commands/promote_ensemble.py:77-105 | the move goes ahead exactly for a TUNING ensemble under `TUNING` whose target is free, with `--force` or a yes; the target is the same relative path under `ENSEMBLES` |
| Promote.SourceNotUnderTarget | MDWFutils/cli/commands/promote_ensemble.py:88-93 | a source under `TUNING` never lies below its target under `ENSEMBLES` |
| Promote.PromoteMoves | MDWFutils/cli/commands/promote_ensemble.py:108-109 | after the move the source directory is gone and the target exists |
| Promote.TargetOfLayout | MDWFutils/cli/commands/promote_ensemble.py:93 | promoting the directory built under `TUNING` gives the one built under `ENSEMBLES` for the same values |
| Promote.Target | MDWFutils/cli/commands/promote_ensemble.py:93 | the target starts with `<base>/ENSEMBLES` and continues with the source's path below `<base>/TUNING`, so a source under `TUNING` has its target under `ENSEMBLES` |
| Promote.Decide | MDWFutils/cli/commands/promote_ensemble.py:77-105 | a PRODUCTION ensemble stops exactly as already promoted; each other stop has its reason (source not under `TUNING`, target taken, no `--force` and no yes); a move goes from the ensemble's directory to a free target under `ENSEMBLES` |
| Promote.Carry | MDWFutils/cli/commands/promote_ensemble.py:107-139 | the directory is moved; a directory clash leaves the row as it was with exit 1; otherwise the row gets PRODUCTION and the target directory and the exit status is that of the recording subprocess; parameters and operations are untouched |
| Promote.DoPromote | MDWFutils/cli/commands/promote_ensemble.py:72-139 | an unknown ensemble exits 1 with nothing changed; any stop before the move (already PRODUCTION exits 0, not under `TUNING` exits 1, existing target exits 1, declined exits 0) changes nothing; otherwise as `Carry` |
| Nickname.SetKeepsUnique | MDWFutils/cli/commands/nickname.py:63-68 | setting a nickname no other ensemble holds keeps nicknames unique, and then only this ensemble holds it |
| Nickname.DoNickname | MDWFutils/cli/commands/nickname.py:41-73 | an unknown ensemble exits 1 with nothing changed; `--clear` removes only the nickname row; a nickname that strips to nothing exits 1 with nothing changed; otherwise the stripped nickname is stored, unless another ensemble holds it and `--force` is absent, which exits 1 with nothing changed; ensembles and operations are untouched, and without `--force` unique nicknames stay unique |
| Zv.Pairs | MDWFutils/cli/commands/zv.py:9 | the defaults table is a well-formed dict holding exactly the listed keys |
| Zv.ApplyMap | MDWFutils/cli/commands/zv.py:163-168 | running the job loop from the defaults gives the defaults overridden by what the tokens alone parse to |
| Zv.Apply | MDWFutils/cli/commands/zv.py:163-168 | the job loop keeps the dict well formed and drops none of its keys |
| Zv.MissingFrom | MDWFutils/cli/commands/zv.py:171 | the missing list holds exactly the required keys that are absent |
| Zv.DefaultsHold | MDWFutils/cli/commands/zv.py:8-9 | of the required job keys the defaults hold `time_limit` and `nodes` but not `mail_user` |
| Zv.MissingJobEmpty | MDWFutils/cli/commands/zv.py:171-172 | with `time_limit` and `nodes` present, nothing is missing exactly when `mail_user` is present |
| Zv.JobMissing | MDWFutils/cli/commands/zv.py:163-177 | the job check passes exactly when some token sets `mail_user` |
| Zv.ParseJob | MDWFutils/cli/commands/zv.py:163-168 | the job loop over the merged `-j` string gives the defaults overridden by the parsed tokens |
| Zv.ApplyTokens | MDWFutils/cli/commands/zv.py:165-168 | the loop that assigns each `=` token onto the dict computes the fold |
| Zv.KeyPath | MDWFutils/cli/commands/zv.py:183-199 | the key split at every `.`, its first part replaced by its alias and the rest kept |
| Zv.SetPath | MDWFutils/cli/commands/zv.py:211-217 | the insertion keeps a well-formed tree and adds at most the path's first key at the top |
| Zv.SetPathFound | MDWFutils/cli/commands/zv.py:211-217 | the inserted value is found at its path |
| Zv.SetPathElsewhere | MDWFutils/cli/commands/zv.py:211-217 | a path that leaves the inserted one where the walk went through existing dicts reads as before |
| Zv.SetPathOtherKey | MDWFutils/cli/commands/zv.py:211-217 | a path with another first key reads as before |
| Zv.SetPathReplaces | MDWFutils/cli/commands/zv.py:214-215 | a non-dict met on the way is replaced by a fresh dict holding only the new entry |
| Zv.LiteralEval | MDWFutils/cli/commands/zv.py:207-210 | the value is a string or a constant |
| Zv.NatToStringHead | MDWFutils/cli/commands/zv.py:208 | the text of an integer starts with `0` only for zero, so it is an integer literal |
| Zv.LiteralOfInt | MDWFutils/cli/commands/zv.py:207-208 | an integer's text evaluates to that integer |
| Zv.LiteralOfQuoted | MDWFutils/cli/commands/zv.py:207-208 | a quoted text without its quote or a backslash evaluates to the text without the quotes |
| Zv.LiteralKeepsText | MDWFutils/cli/commands/zv.py:207-210 | text that is not a literal is kept unchanged |
| Zv.Insert | MDWFutils/cli/commands/zv.py:206-217 | one insertion keeps the tree well formed |
| Zv.BlankStrip | MDWFutils/cli/commands/zv.py:201 | a token is skipped exactly when it strips to nothing |
| Zv.FirstRefused | MDWFutils/cli/commands/zv.py:200-205 | no token is refused exactly when every token is blank or holds `=`; a refused position is the first such token |
| Zv.Inserted | MDWFutils/cli/commands/zv.py:200-217 | the insertions of the accepted tokens keep the tree well formed |
| Zv.WitDict | MDWFutils/cli/commands/zv.py:180-217 | a successful loop gives a well-formed tree |
| Zv.WitDictErr | MDWFutils/cli/commands/zv.py:203-205 | the loop fails exactly when some token is refused, and its message names the first one |
| Zv.LastTokenWins | MDWFutils/cli/commands/zv.py:206-217 | the last token's evaluated value is found at its normalised path |
| Zv.InsertedStep | MDWFutils/cli/commands/zv.py:200-217 | a blank or `=`-free token inserts nothing; any other inserts its value |
| Zv.ParseWit | MDWFutils/cli/commands/zv.py:180-217 | the WIT loop over the merged `-w` string computes the specification: an error for the first refused token, else all insertions in order |
| Zv.Prefixed | MDWFutils/cli/commands/zv.py:238-265 | each path below a key is prefixed with that key |
| Zv.PrefixedIn | MDWFutils/cli/commands/zv.py:238-265 | a prefixed path is one that starts with the key and continues with a listed path |
| Zv.LeafPathsFromAt | MDWFutils/cli/commands/zv.py:263-269 | the recursive walk visits exactly the paths that lead to a non-dict value |
| Zv.LeafPathsAt | MDWFutils/cli/commands/zv.py:263-270 | from the top, the walk visits exactly the paths to non-dict values |
| Zv.LeafKeys | MDWFutils/cli/commands/zv.py:263-270 | `collect_keys` gives the dotted name of every visited path, in walk order |
| Zv.LeafKeysAt | MDWFutils/cli/commands/zv.py:263-270 | a name is collected exactly when some path to a non-dict value is written that way |
| Zv.SectionKey | MDWFutils/cli/commands/zv.py:265-269 | a value two levels down under a non-empty section is collected as `SECTION.KEY` |
| Zv.MissingWit | MDWFutils/cli/commands/zv.py:261-271 | the missing WIT names are exactly the required names not collected |
| Zv.RequiredHeld | MDWFutils/cli/commands/zv.py:261-274 | nothing is missing when the three `Configurations` entries and `Propagator.Seed` hold values |
| Zv.UnusedNone | MDWFutils/cli/commands/zv.py:235-243 | nothing is unused exactly when every non-dict value sits at a valid dotted name |
| Zv.PropOf | MDWFutils/cli/commands/zv.py:277-278 | the `Propagator` section is a dict holding `Seed` |
| Zv.Prop0Of | MDWFutils/cli/commands/zv.py:282-283 | the `Propagator_0` section is the stored dict, or `{}` when absent |
| Zv.SeededProp0 | MDWFutils/cli/commands/zv.py:284 | `Propagator_0` with the seed assigned into it |
| Zv.PropRest | MDWFutils/cli/commands/zv.py:287 | `Propagator` with the seed deleted |
| Zv.PropEmptiedMeaning | MDWFutils/cli/commands/zv.py:289 | `Propagator` is left empty exactly when it held nothing but the seed |
| Zv.MoveSeed | MDWFutils/cli/commands/zv.py:277-290 | the move sets the seeded `Propagator_0` and either drops an emptied `Propagator` or keeps the rest of it |
| Zv.MoveSeedGood | MDWFutils/cli/commands/zv.py:277-290 | the move keeps every dict well formed |
| Zv.RelocateSeed | MDWFutils/cli/commands/zv.py:276-290 | a successful Seed step leaves a well-formed tree |
| Zv.MoveSeedFound | MDWFutils/cli/commands/zv.py:277-290 | after the move the seed is under `Propagator_0` and not under `Propagator`, which is kept exactly when it held something else |
| Zv.MoveSeedKeepsPropagator | MDWFutils/cli/commands/zv.py:287-290 | the other entries of `Propagator` are as before |
| Zv.MoveSeedKeepsPropagator0 | MDWFutils/cli/commands/zv.py:282-284 | the other entries of `Propagator_0` are as before |
| Zv.MovedProp0 | MDWFutils/cli/commands/zv.py:282-284 | after the move `Propagator_0` is the seeded section |
| Zv.MoveSeedKeepsOthers | MDWFutils/cli/commands/zv.py:276-290 | every other section is as before |
| Zv.SeedMoved | MDWFutils/cli/commands/zv.py:277-290 | with a `Seed` in a `Propagator` dict, the step succeeds exactly when `Propagator_0` is absent or a dict, and is then the move |
| Zv.SeedAbsent | MDWFutils/cli/commands/zv.py:277 | without `Propagator`, or with one holding no `Seed`, the step changes nothing |
| Zv.PruneEntry | MDWFutils/cli/commands/zv.py:248-255 | what stays under a key is well formed |
| Zv.PruneFrom | MDWFutils/cli/commands/zv.py:248-257 | visiting the keys keeps the tree well formed |
| Zv.Prune | MDWFutils/cli/commands/zv.py:246-257 | `remove_unused_keys` keeps the tree well formed |
| Zv.PruneFromAt | MDWFutils/cli/commands/zv.py:248-257 | a visited key holds what `PruneEntry` leaves; an unvisited key is as before |
| Zv.PruneAt | MDWFutils/cli/commands/zv.py:246-257 | each key is kept or dropped as `PruneEntry` says, and no key is added |
| Zv.PruneLeaf | MDWFutils/cli/commands/zv.py:246-257 | a non-dict value survives exactly when its dotted name is not listed |
| Zv.PruneNoEmpty | MDWFutils/cli/commands/zv.py:250-253 | no dict left in the result is empty |
| Zv.PruneClean | MDWFutils/cli/commands/zv.py:246-299 | with nothing unused, pruning keeps every value, all at valid names, and leaves no empty section |
| Zv.WitAccepted | MDWFutils/cli/commands/zv.py:259-299 | the WIT dict passed on is the parsed one after the Seed step: nothing required missing, nothing unused, the same values, no empty section |
| Zv.JobAccepted | MDWFutils/cli/commands/zv.py:163-177 | a job dict that passes the check has `mail_user` from a token and every required key |
| Zv.DoZv | MDWFutils/cli/commands/zv.py:103-320 | an unknown ensemble exits 1; otherwise the command reaches the generator (status 0) exactly when the job check and the WIT steps pass and `nodes`, `gpus` and `ranks` read as integers, with the job dict, the pruned WIT dict and those integers as inputs |
| Zv.GeneratorInts | MDWFutils/cli/commands/zv.py:314-318 | the casts succeed exactly when `nodes` and `gpus` are present and read as integers and `ranks`, when present, does; `ranks` is 4 when absent |
| Zv.GeneratorIntsOfText | MDWFutils/cli/commands/zv.py:314-318 | integers written as text are read back by the casts |
| Zv.NonIntegerNodesRefused | MDWFutils/cli/commands/zv.py:314 | a token `nodes=two` makes the casts raise, whatever the job dict held before |
| Wit.DefaultWitParams | MDWFutils/jobs/wit.py:10-54 | the defaults table is a well-formed tree of sections |
| Wit.WitParams | MDWFutils/jobs/wit.py:78-80 | the parameters written are a well-formed tree: a fresh copy of the defaults, with the user's changes merged in only when there are any |
| Wit.PadRight | MDWFutils/jobs/wit.py:89 | `f"{s:<12}"` is `s` followed by spaces up to width 12, and `s` itself when longer |
| Wit.BlockLines | MDWFutils/jobs/wit.py:88-89 | one entry line per key of the block |
| Wit.RenderSectionsNext | MDWFutils/jobs/wit.py:86-90 | rendering one more section appends that section's lines |
| Wit.RenderSections | MDWFutils/jobs/wit.py:85-90 | the sections written so far succeed exactly when each of them is a dict, and then each has its `[section]` header line |
| Wit.RenderWit | MDWFutils/jobs/wit.py:85-90 | the file is written exactly when every section is a dict, with a `[section]` header line for each |
| Wit.WriteBlock | MDWFutils/jobs/wit.py:88-89 | the inner loop appends the block's entry lines, in order |
| Wit.RenderErrSticks | MDWFutils/jobs/wit.py:86-88 | once a section fails to render (a non-dict block), the whole rendering fails with that error |
| Wit.WriteSections | MDWFutils/jobs/wit.py:85-90 | the loop writes `[section]`, the entry lines and a blank line per section, stopping at the first section that is not a dict |
| Wit.GenerateWitInput | MDWFutils/jobs/wit.py:69-93 | the lines written are the rendering of the defaults merged with the user's changes |
| Wit.EntryLineRoundTrip | MDWFutils/jobs/wit.py:89 | an entry line gives back its key and value text when the key is one word and the value has no surrounding whitespace |
| Nested.MergeValue | MDWFutils/jobs/wit.py:61-65 | the value left under a key of the updates is well formed |
| Nested.UpdateFrom | MDWFutils/jobs/wit.py:61-65 | the loop over the updates' keys keeps the tree well formed |
| Nested.UpdateNested | MDWFutils/jobs/wit.py:57-66 | `update_nested_dict` keeps the tree well formed |
| Nested.UpdateFromAt | MDWFutils/jobs/wit.py:61-65 | after the loop a visited key holds its merge and any other key is as before |
| Nested.UpdateNestedAt | MDWFutils/jobs/wit.py:60-65 | the result has exactly the keys of both sides; a key of the updates holds the merge (recursive when both sides are dicts, else the update's value); a key only in `d` is untouched |
| Nested.UpdateNestedKeys | MDWFutils/jobs/wit.py:61-65 | the new keys go after the old ones, in the updates' order |
| Nested.UpdateNestedLeaf | MDWFutils/jobs/wit.py:61-65 | updates win: every non-dict value reachable in the updates is found at the same path in the result |
| Nested.UpdateNestedOutside | MDWFutils/jobs/wit.py:61-65 | a path whose first key the updates lack reads as before |
| PyDict.Set | MDWFutils/cli/components.py:42 | `d[k] = v` replaces the value and puts a new key last |
| PyDict.Remove | MDWFutils/cli/commands/zv.py:256-257 | `d.pop(k)` removes exactly that key |
| PyDict.UpdateValues | MDWFutils/cli/components.py:47-48 | `d.update(e)` gives each key of `e` its value in `e` and keeps `d`'s value for every other key |
| PyDict.UpdateKeys | MDWFutils/cli/components.py:47-48 | `d.update(e)` keeps `d`'s keys in order, then adds `e`'s new keys in `e`'s order |
| PyDict.Update | MDWFutils/cli/components.py:47-48 | `d.update(e)` gives a dict with distinct keys that are exactly its mapped keys |
| PyDict.Items | MDWFutils/config.py:128 | `d.items()` lists each key with its value, in insertion order |
| Text.Strip | MDWFutils/config.py:115 | `s.strip()` is `s` with whitespace removed from both ends and nowhere else |
| Text.SplitOnce | MDWFutils/config.py:117 | `s.split('=', 1)` on a token holding `=` gives the text before the first `=` and the rest |
| Text.Split | MDWFutils/jobs/utils.py:50 | `value.split(',')` gives at least one part, none holding the separator |
| Text.JoinSplit | MDWFutils/jobs/glu.py:156-181 | joining the parts of a split with its separator gives the text back |
| Text.SplitWsWords | MDWFutils/config.py:115 | the words of `s.split()` are non-empty and hold no whitespace |
| Text.SplitWsJoin | MDWFutils/config.py:115-128 | `' '.join(words).split()` gives the words back when none is empty or holds whitespace |
| Text.ParseInt | MDWFutils/jobs/utils.py:50 | a successful `int(s)` needs some non-whitespace text |
| Text.ParseIntToString | MDWFutils/jobs/utils.py:50 | `int(str(n)) == n` |
| Meson2pt.NonBlank | MDWFutils/jobs/meson2pt.py:151 | the parts kept are exactly those that are not blank after stripping, in order |
| Meson2pt.NormalizeOgeom | MDWFutils/jobs/meson2pt.py:139-155 | no grid gives `[1,1,1,4]`; a given grid succeeds exactly when it reads as four positive integers (split on commas when it has one, on whitespace otherwise, blanks dropped), and is then those integers |
| Meson2pt.NormalizeOgeomCommas | MDWFutils/jobs/meson2pt.py:146-153 | a grid of four positive integers written with commas reads back as itself |
| Meson2pt.NormalizeOgeomSpaces | MDWFutils/jobs/meson2pt.py:146-153 | a grid of four positive integers written with spaces reads back as itself |
| Meson2pt.Meson2ptGeometry | MDWFutils/jobs/meson2pt.py:139-173 | an accepted grid uses `4 * nodes` ranks and gives a local lattice whose entries times the grid's are the extents `L, L, L, T`, each local entry even |
| Meson2pt.Meson2ptAgreesWithValidateGeometry | MDWFutils/jobs/meson2pt.py:156-173 | among grids with `4 * nodes` ranks, the check here accepts exactly what `validate_geometry` accepts and derives the same local lattice |
| Meson2pt.LatticeDims | MDWFutils/jobs/meson2pt.py:121-126 | the dimensions are read exactly when `L` and `T` are present, read as integers and are positive |
| Meson2pt.RangeOf | MDWFutils/jobs/meson2pt.py:197-203 | a range needs a dict section with `first` and `last` read as integers; `step` is read when present and is 4 otherwise |
| Meson2pt.ConfigRange | MDWFutils/jobs/meson2pt.py:196-203 | the range is read exactly when the section gives one, else the ValueError |
| Meson2pt.RangeOfDefaultStep | MDWFutils/jobs/meson2pt.py:199-201 | `first` and `last` numerals without `step` give that range with step 4 |
| Meson2pt.ScriptPath | MDWFutils/jobs/meson2pt.py:205-207 | a given output file is used as is; otherwise the script goes to `<ensemble dir>/slurm/meson2pt_…` |
| Meson2pt.QuarkMasses | MDWFutils/jobs/meson2pt.py:128-133 | the masses pass exactly when `ml`, `ms` and `mc` are each present and read as positive numbers |
| Meson2pt.Meson2ptPlan | MDWFutils/jobs/meson2pt.py:110-209 | a plan exactly when `mail_user` is given and the lattice, the masses, the grid and the range all read; otherwise the first failure's error, in the source's order; a plan's local lattice is the grid check's, its range the WIT changes', its script `ScriptPath` of that range and its parameter text `RangeParams` of it |
| Meson2pt.RangeParamsRead | MDWFutils/jobs/meson2pt.py:209 | the parameter text splits into three words that read back as `config_start`, `config_end` and `config_increment` with the range's numerals, which read back as the range |
| Glu.Target | MDWFutils/jobs/glu.py:83-96 | an override sets a name that has a default: the key itself for a flat key, the part after the first `.` for a dotted one |
| Glu.OverriddenKeys | MDWFutils/jobs/glu.py:82-96 | the override loop adds and removes no name |
| Glu.GluParams | MDWFutils/jobs/glu.py:82-96 | the parameters after the override loop have exactly the defaults' names |
| Glu.OverriddenDefault | MDWFutils/jobs/glu.py:82-96 | a default no override aims at keeps its default text |
| Glu.OverriddenLast | MDWFutils/jobs/glu.py:82-96 | a default holds the text of the last override aimed at it |
| Glu.ApplyOverrides | MDWFutils/jobs/glu.py:82-96 | the loop computes the override fold |
| Glu.KeyIndex | MDWFutils/jobs/glu.py:158-206 | the line acted on is a line of the content that carries the key's name |
| Glu.MatchHasEq | MDWFutils/jobs/glu.py:176-206 | a matching line holds an `=` |
| Glu.GetGluParameter | MDWFutils/jobs/glu.py:183-208 | there is a value exactly when the key has a line |
| Glu.Indent | MDWFutils/jobs/glu.py:170-177 | the indent is the leading whitespace: indent followed by the stripped line is the line |
| Glu.Updated | MDWFutils/jobs/glu.py:156-181 | the line count is kept; without a key line nothing changes; otherwise the key's line becomes `NAME = value` behind its old indent and every other line is kept |
| Glu.UpdateInSection | MDWFutils/jobs/glu.py:158-172 | the section loop for a `parent.child` key computes `Updated` |
| Glu.UpdateTopLevel | MDWFutils/jobs/glu.py:173-179 | the flat loop computes `Updated` |
| Glu.UpdateGluParameter | MDWFutils/jobs/glu.py:149-181 | the update is the content with the key's line rewritten |
| Glu.UpdatedContent | MDWFutils/jobs/glu.py:149-181 | a text with no line for the key comes back unchanged |
| Glu.NewLine | MDWFutils/jobs/glu.py:171-178 | the replacement line matches the same name, its text after the first `=` is ` value`, and it holds no newline when neither the old line nor the value does |
| Glu.SectionLineKept | MDWFutils/jobs/glu.py:163-172 | the rewritten child line still passes the section scan's tests as the child line |
| Glu.GetAfterUpdate | MDWFutils/jobs/glu.py:149-208 | reading a key back after updating it gives the stripped new value, for flat and `parent.child` keys, when the key has a line and the value no newline |
| Glu.UpdatedLines | MDWFutils/jobs/glu.py:156-181 | the lines of the updated content are the old lines with the key's line replaced |
| Glu.MatchesKept | MDWFutils/jobs/glu.py:163-176 | the rewritten line matches another name exactly when the old one did |
| Glu.OutsideKept | MDWFutils/jobs/glu.py:167-198 | the rewritten line ends a section exactly when the old one did |
| Glu.KeyIndexKept | MDWFutils/jobs/glu.py:158-179 | after one key's line is rewritten, the scan for any other key finds the same line |
| Glu.OtherKeyKept | MDWFutils/jobs/glu.py:149-208 | updating one key leaves the value read for every other key on a different line, flat or `parent.child` |
| LineScan.FirstWhere | MDWFutils/jobs/glu.py:175-206 | the first line from `from` that passes the test, with none before it; none when no line passes |
| LineScan.FirstWhereAt | MDWFutils/jobs/glu.py:175-179 | a passing line with none before it is the first |
| LineScan.SectionWhere | MDWFutils/jobs/glu.py:166-172 | the section scan finds a child line that is neither a parent line nor outside, after passing every earlier line |
| LineScan.NestedWhere | MDWFutils/jobs/glu.py:158-201 | the nested scan finds the first child line in the block after the first parent line |
| LineScan.FindInSection | MDWFutils/jobs/glu.py:161-172 | the loop with its `in_section` flag computes the nested scan |
| LineScan.FindFirst | MDWFutils/jobs/glu.py:175-179 | the flat loop computes the first match |
| LineScan.NestedAfterRewrite | MDWFutils/jobs/glu.py:169-172 | rewriting the found child line with one that passes the same tests keeps it found |
| LineScan.FirstAfterRewrite | MDWFutils/jobs/glu.py:176-179 | rewriting the first match with another match keeps it first |
| LineScan.FirstWhereSameTests | MDWFutils/jobs/glu.py:175-179 | rewriting a line with one that answers the test the same keeps the first match |
| LineScan.SectionWhereSameTests | MDWFutils/jobs/glu.py:166-172 | the same for the scan inside a section |
| LineScan.NestedWhereSameTests | MDWFutils/jobs/glu.py:158-172 | the same for the nested scan |
| Hmc.ParseMode | MDWFutils/jobs/hmc.py:23-33 | a mode is recognised exactly when its name is `tepid`, `continue` or `reseed`, and then has that name |
| Hmc.ParseModeName | MDWFutils/jobs/hmc.py:23-33 | every mode's name reads back as that mode |
| Hmc.DefaultTop | MDWFutils/jobs/hmc.py:47-53 | the default `HMCparameters` children form a well-formed element |
| Hmc.DefaultElem | MDWFutils/jobs/hmc.py:11-67 | the default tree is well formed |
| Hmc.DefaultFollowsTable | MDWFutils/jobs/hmc.py:23-53 | a fresh element holds the mode's start trajectory, trajectory count, Metropolis flag, starting type and the seed |
| Hmc.Reset | MDWFutils/jobs/hmc.py:123-145 | the reset element is well formed |
| Hmc.ResetSets | MDWFutils/jobs/hmc.py:123-145 | after the reset `StartingType` and `MetropolisTest` hold the mode's values, every other tag and the `MD` block are as before, and a tag is added only when it was missing |
| Hmc.ResetDefault | MDWFutils/jobs/hmc.py:23-33 | the defaults table and the reset table agree: resetting a fresh element to its own mode changes nothing |
| Hmc.SetSame | MDWFutils/jobs/hmc.py:139-145 | setting a tag to the text it already holds changes nothing |
| Hmc.SeedSet | MDWFutils/jobs/hmc.py:120-121 | setting `Seed` succeeds exactly when the element has one; then it holds the seed's text and nothing else changes |
| Hmc.ListItems | MDWFutils/jobs/hmc.py:154-161 | one item per comma-separated part, each part stripped |
| Hmc.ListItemsJoin | MDWFutils/jobs/hmc.py:154-161 | a comma-joined list of clean items reads back as those items |
| Hmc.ApplyOverride | MDWFutils/jobs/hmc.py:148-174 | `md_name` and `lvl_sizes` replace their lists with the value's items and fail exactly when the list is absent; any other key sets a direct child of `HMCparameters`, else a child of `MD`, else changes nothing; no tag is added |
| Hmc.Overridden | MDWFutils/jobs/hmc.py:148-174 | the override loop keeps the element well formed |
| Hmc.OverriddenKeys | MDWFutils/jobs/hmc.py:148-174 | overrides never add a tag |
| Hmc.OverriddenOther | MDWFutils/jobs/hmc.py:148-174 | a tag no override names keeps its text |
| Hmc.OverriddenListsKept | MDWFutils/jobs/hmc.py:151-162 | a list no override names keeps its items |
| Hmc.OverriddenTop | MDWFutils/jobs/hmc.py:164-167 | with distinct keys, a named direct child of `HMCparameters` holds its override's text |
| Hmc.OverriddenMdName | MDWFutils/jobs/hmc.py:151-156 | with distinct keys, an `md_name` override leaves exactly its items |
| Hmc.SeedOverride | MDWFutils/jobs/hmc.py:101-108 | without a `Seed` override there is none; with one it is accepted exactly in reseed mode with an integer, which it then is |
| Hmc.Start | MDWFutils/jobs/hmc.py:111-117 | the element started from is well formed |
| Hmc.WithoutSeed | MDWFutils/jobs/hmc.py:106 | popping `Seed` removes it and keeps every other override |
| Hmc.Prepared | MDWFutils/jobs/hmc.py:110-145 | an unknown mode is refused; a prepared element holds the mode's starting type and Metropolis flag and a reseed override's seed; without a file and a seed override it is the default tree; a file with both mode tags gains no tag |
| Hmc.Generated | MDWFutils/jobs/hmc.py:85-178 | the element written is well formed |
| Hmc.UnknownModeRefused | MDWFutils/jobs/hmc.py:124-130 | an unknown mode is always refused |
| Hmc.GeneratedSteps | MDWFutils/jobs/hmc.py:101-175 | a success passed the seed check and the preparation, and is the override loop over the remaining overrides |
| Hmc.SeedOnlyInReseed | MDWFutils/jobs/hmc.py:102-121 | a `Seed` override succeeds only in reseed mode with an integer, and the written `Seed` is that integer |
| Hmc.SeedPrepared | MDWFutils/jobs/hmc.py:102-121 | a successful run with a `Seed` override is in reseed mode with an integer seed, and the override loop starts from an element holding that seed |
| Hmc.ModeTagsSet | MDWFutils/jobs/hmc.py:123-145 | on success `StartingType` and `MetropolisTest` hold the mode's values unless an override names them |
| Hmc.MdNameItems | MDWFutils/jobs/hmc.py:151-156 | on success an `md_name` override leaves the stripped comma-separated items of its value |
| Hmc.FreshDefaults | MDWFutils/jobs/hmc.py:113-114 | without a file and overrides a known mode writes the defaults table with the drawn seed |
| Hmc.ExistingKeepsTags | MDWFutils/jobs/hmc.py:111-112 | updating an existing file that has both mode tags adds no tag |
| Hmc.HmcParameters.constructor | MDWFutils/jobs/hmc.py:11-67 | the tree holds the default element, or the parsed one |
| Hmc.HmcParameters.SetSeed | MDWFutils/jobs/hmc.py:120-121 | the tree changes exactly as `SeedSet` says, and is untouched when there is no `Seed` |
| Hmc.HmcParameters.ResetMode | MDWFutils/jobs/hmc.py:132-145 | the tree becomes the reset element |
| Hmc.HmcParameters.ApplyOverrides | MDWFutils/jobs/hmc.py:148-174 | the loop ends with the override fold's element, or its error |
| Hmc.HmcParameters.ApplyOne | MDWFutils/jobs/hmc.py:150-174 | one override sets the list element's items, else the direct child, else the `MD` child; an absent list element is its error |
| Hmc.OverriddenErrStays | MDWFutils/jobs/hmc.py:148-162 | once the loop has failed it stays failed with the same error |
| Hmc.GenerateHmcParameters | MDWFutils/jobs/hmc.py:85-178 | the steps compute `Generated` |
| Hmc.NoDotInInt | MDWFutils/jobs/hmc.py:224 | an integer's text holds no `.` |
| Hmc.VolRoundTrip | MDWFutils/jobs/hmc.py:223-224 | the grid `L.L.L.T` splits on `.` into four integers, `L` three times and then `T` |
| Hmc.IntParam | MDWFutils/jobs/hmc.py:223 | a parameter is read exactly when it is present and an integer |
| Hmc.ExecPath | MDWFutils/jobs/hmc.py:227-231 | the argument, else `hmc_exec_path`, else the error |
| Hmc.BindScriptGpu | MDWFutils/jobs/hmc.py:233-239 | the argument, else `hmc_bind_script_gpu`, else `hmc_bind_script`, else the error |
| Hmc.BindScriptCpu | MDWFutils/jobs/hmc.py:405-408 | the argument, else `hmc_bind_script_cpu`, else the error |
| Hmc.OrDefault | MDWFutils/jobs/hmc.py:265 | a present non-empty text is kept, anything else gives the default |
| Hmc.SlurmInputs | MDWFutils/jobs/hmc.py:219-265 | the script's inputs exist exactly when the ensemble is known, `L` and `T` read, the executable and binding script are found and `n_trajec`, `trajL` and `lvl_sizes` are given and, for the GPU script, `beta`, `b`, `Ls`, `mc`, `ms` and `ml` are present for `ens_name`; then the grid, executable, binding script and thread count are those lookups' |
| HmcScript.AllAssignSnoc | MDWFutils/cli/commands/hmc_script.py:72-87 | the loop's invariant grows by one token that holds `=` |
| HmcScript.StrictParse | MDWFutils/cli/commands/hmc_script.py:72-87 | the tokens parse exactly when every one holds `=`, into the dict of the `key=value` fold; otherwise the "bad param" error |
| HmcScript.ParseTokens | MDWFutils/cli/commands/hmc_script.py:72-87 | the loop over the whitespace split computes `StrictParse` |
| HmcScript.DefaultJobParams | MDWFutils/cli/commands/hmc_script.py:15-24 | the default job table is a well-formed dict |
| HmcScript.DefaultCpus | MDWFutils/cli/commands/hmc_script.py:18 | the default `cpus_per_task` is `32` |
| HmcScript.DefaultsLackJobOnly | MDWFutils/cli/commands/hmc_script.py:15-24 | `out_path` and `omp_num_threads` are no job defaults |
| HmcScript.DefaultsLackTasks | MDWFutils/cli/commands/hmc_script.py:15-24 | `ntasks_per_node` and `resubmit` are no job defaults |
| HmcScript.SetDefaults | MDWFutils/cli/commands/hmc_script.py:95-96 | `setdefault` over the defaults keeps the dict well formed |
| HmcScript.SetDefaultsAt | MDWFutils/cli/commands/hmc_script.py:95-96 | a given key keeps its value and a default fills only a key that was absent |
| HmcScript.SetDefaultsSnoc | MDWFutils/cli/commands/hmc_script.py:95-96 | one more step sets the next default only when its key is absent |
| HmcScript.Filled | MDWFutils/cli/commands/hmc_script.py:94-104 | the filled job dict is well formed |
| HmcScript.FilledAt | MDWFutils/cli/commands/hmc_script.py:94-104 | each key holds the given value, else the default, else `cpus_per_task` for `ntasks_per_node`, else `false` in reseed mode and `true` otherwise for `resubmit`, else nothing |
| HmcScript.FilledShape | MDWFutils/cli/commands/hmc_script.py:98-104 | filling adds at most `ntasks_per_node` and `resubmit` to the defaulted dict |
| HmcScript.FillJob | MDWFutils/cli/commands/hmc_script.py:94-104 | the loop and the two defaults after it compute `Filled` |
| HmcScript.JobDict | MDWFutils/cli/commands/hmc_script.py:81-104 | the job dict is well formed |
| HmcScript.JobDictKeeps | MDWFutils/cli/commands/hmc_script.py:94-104 | a key that is no default and neither `ntasks_per_node` nor `resubmit` is in the job dict exactly as given |
| HmcScript.JobDictTasks | MDWFutils/cli/commands/hmc_script.py:18 | without `ntasks_per_node` and `cpus_per_task` the job runs 32 tasks per node |
| HmcScript.RelativeTo | MDWFutils/cli/commands/hmc_script.py:55-61 | a relative path is non-empty and prefixing it with the base gives the directory back |
| HmcScript.EnsName | MDWFutils/cli/commands/hmc_script.py:63 | same length, every `/` becomes `_`, every other character is kept |
| HmcScript.GpuParameterNames | MDWFutils/jobs/hmc.py:182-210 | the GPU generator takes `out_path` and `omp_num_threads` but neither `cfg_max` nor `resubmit` |
| HmcScript.KeywordCall | MDWFutils/cli/commands/hmc_script.py:121 | a keyword call binds exactly when every argument names a parameter |
| HmcScript.FixedArgs | MDWFutils/cli/commands/hmc_script.py:107-117 | the fixed arguments form a well-formed dict |
| HmcScript.FixedArgsOutPath | MDWFutils/cli/commands/hmc_script.py:107-117 | the fixed arguments hold the output file as `out_path` and no `omp_num_threads` |
| HmcScript.SbatchArgs | MDWFutils/cli/commands/hmc_script.py:107-119 | the arguments are the fixed ones updated with every job parameter |
| HmcScript.AsWrittenCallFails | MDWFutils/cli/commands/hmc_script.py:89-121 | every job dict that passes the required-key check holds `cfg_max` and `resubmit`, so the call as written never binds |
| HmcScript.Accepted | MDWFutils/cli/commands/hmc_script.py:121 | the kept arguments are arguments that name parameters |
| HmcScript.AcceptedAt | MDWFutils/cli/commands/hmc_script.py:121 | a parameter keeps its argument and anything else is left out |
| HmcScript.AcceptedCallBinds | MDWFutils/cli/commands/hmc_script.py:121 | with the extra arguments left out the call always binds |
| HmcScript.AcceptedUpdate | MDWFutils/cli/commands/hmc_script.py:119-121 | a parameter of the updated arguments takes the update's value when it names it, else the base value |
| HmcScript.GeneratorArgs | MDWFutils/cli/commands/hmc_script.py:121 | the generator gets only its own parameters, and an `out_path` whenever one was passed |
| HmcScript.SbatchOutPath | MDWFutils/cli/commands/hmc_script.py:107-119 | the generator's arguments always hold an `out_path` |
| HmcScript.AsWrittenScriptFails | MDWFutils/cli/commands/hmc_script.py:89-121 | as written, the generator call fails for every job dict that passed the required-key check |
| HmcScript.ScriptPath | MDWFutils/cli/commands/hmc_script.py:66-121 | with the extra arguments dropped, the script goes to `slurm/hmc_<id>_<mode>.sbatch` unless the job parameters name another `out_path`, and OpenMP threads default to 16 |
| HmcScript.ScriptArgs | MDWFutils/cli/commands/hmc_script.py:107-121 | the generator's `out_path` is the given one or the default path, its `omp_num_threads` the given one |
| HmcScript.JobStage | MDWFutils/cli/commands/hmc_script.py:80-124 | the XML is written; a script exists exactly when the status is 0; the status is 0 or 1 |
| HmcScript.Run | MDWFutils/cli/commands/hmc_script.py:47-124 | the status is 0 or 1, a script exists exactly when it is 0, and then the XML was written |
| HmcScript.RunAsWrittenFails | MDWFutils/cli/commands/hmc_script.py:47-124 | as written every run ends with status 1 and no batch script |
| HmcScript.DoScript | MDWFutils/cli/commands/hmc_script.py:89-121 | the steps compute `Script` as written |
| HmcScript.DoJobStage | MDWFutils/cli/commands/hmc_script.py:80-124 | the steps compute `JobStage` as written |
| HmcScript.DoHmcScript | MDWFutils/cli/commands/hmc_script.py:47-124 | the steps compute `Run` as written |
| HmcScript.OutsideBaseRefused | MDWFutils/cli/commands/hmc_script.py:56-60 | an ensemble outside `--base-dir` ends with 1 before anything is written |
| HmcScript.XmlNameClashRefused | MDWFutils/cli/commands/hmc_script.py:78 | an XML parameter named `mode` or `ensemble_dir` ends with 1 before the XML is written |
| HmcScript.MissingRequiredRefused | MDWFutils/cli/commands/hmc_script.py:89-92 | job parameters without `queue` or `cfg_max` end with 1 after the XML and before any script |
| SlurmTrap.StatusName | MDWFutils/jobs/slurm_update_trap.py:101-119 | every status is logged under a non-empty upper-case name |
| SlurmTrap.StateDecides | MDWFutils/jobs/slurm_update_trap.py:100-109 | a state naming a timeout, a cancellation or a failure decides the status whatever the exit status, and never as COMPLETED |
| SlurmTrap.ClassifyMeaning | MDWFutils/jobs/slurm_update_trap.py:100-119 | each status in terms of the state and the exit status: TIMEOUT exactly for a timeout state; CANCELED for a cancel or preempt state, or a signal's exit status with no failure state; FAILED for a failure state, or another non-zero exit; COMPLETED otherwise |
| SlurmTrap.ClassifyIgnoresCase | MDWFutils/jobs/slurm_update_trap.py:100 | the state is compared without case |
| SlurmTrap.Classify | MDWFutils/jobs/slurm_update_trap.py:101-119 | the reason follows the status, and `job_killed` only for a signal's exit status |
| SlurmTrap.PollTries | MDWFutils/jobs/slurm_update_trap.py:77 | an unset or empty setting gives 20 tries |
| SlurmTrap.PollFirstTerminal | MDWFutils/jobs/slurm_update_trap.py:79-85 | the poll stops at the first terminal answer |
| SlurmTrap.PollNoTerminal | MDWFutils/jobs/slurm_update_trap.py:79-89 | without a terminal answer the poll gives the last query's answer |
| SlurmTrap.FinalState | MDWFutils/jobs/slurm_update_trap.py:75-90 | the polling loop computes `Poll` |
| SlurmTrap.SlurmStatus | MDWFutils/jobs/slurm_update_trap.py:92-97 | `NO_JOBID` without a job id; the polled state when it is not empty; `UNKNOWN` exactly when the poll gave nothing or `UNKNOWN` |
| SlurmTrap.LoggedStatusMeaning | MDWFutils/jobs/slurm_update_trap.py:122-126 | the logged state is never empty, running, pending or unknown in any case, and is the SLURM state whenever that is none of those |
| SlurmTrap.JoinSnoc | MDWFutils/jobs/slurm_update_trap.py:31-39 | appending a word adds a space and the word |
| SlurmTrap.BaseWords | MDWFutils/jobs/slurm_update_trap.py:30-34 | the range branch has two or three words |
| SlurmTrap.RangeWords | MDWFutils/jobs/slurm_update_trap.py:30-40 | the range words are never empty |
| SlurmTrap.BaseJoin | MDWFutils/jobs/slurm_update_trap.py:30-34 | the range branch's string is its words joined by spaces |
| SlurmTrap.RangeJoin | MDWFutils/jobs/slurm_update_trap.py:29-40 | with `run_dir` the string is still the range words joined by spaces |
| SlurmTrap.RangeKeysClean | MDWFutils/jobs/slurm_update_trap.py:31-39 | the range keys hold no whitespace and no `=` |
| SlurmTrap.WordClean | MDWFutils/jobs/slurm_update_trap.py:31-39 | a `key=value` word of clean parts is a non-empty word without whitespace |
| SlurmTrap.RangeRoundTrip | MDWFutils/jobs/slurm_update_trap.py:29-41 | with the range set and no whitespace in the values, splitting the string gives exactly the range words |
| SlurmTrap.RangeWordsRead | MDWFutils/jobs/slurm_update_trap.py:31-39 | each range word reads back as its key and value |
| SlurmTrap.ParamsFallback | MDWFutils/jobs/slurm_update_trap.py:35-40 | without the range the string is `PARAMS`, followed by the run directory when one is set |
| SlurmTrap.FinalLine | MDWFutils/jobs/slurm_update_trap.py:170 | the final update's status is the name of the classified status |
| SlurmTrap.Logged | MDWFutils/jobs/slurm_update_trap.py:41 | a line is appended exactly when a log file is set |
| SlurmTrap.Shell.constructor | MDWFutils/jobs/slurm_update_trap.py:190-194 | sourcing logs the RUNNING update and arms the EXIT trap exactly when the database, ensemble, operation and either the range or `PARAMS` are set |
| SlurmTrap.Shell.UpdateStatus | MDWFutils/jobs/slurm_update_trap.py:46-171 | the first call disarms the trap and logs the final update once; every later call changes nothing |
| SlurmTrap.Shell.Exit | MDWFutils/jobs/slurm_update_trap.py:174 | an unarmed exit changes nothing; an armed one whose handler has already run changes nothing; otherwise the handler disarms the trap and logs exactly the final update of the polled state |
| SlurmTrap.Shell.LogIngest | MDWFutils/jobs/slurm_update_trap.py:180-188 | one COMPLETED line for the ingest, under `FILE_INGEST` when no operation type is given |
| SlurmTrap.AsWrittenFailureLogged | MDWFutils/jobs/slurm_update_trap.py:51-54 | as written, a job still RUNNING whose script failed with status 1 is logged COMPLETED; with the script's status it is FAILED |
| SlurmTrap.AsWrittenIgnoresExit | MDWFutils/jobs/slurm_update_trap.py:53-54 | as written the exit status never takes part, and a state naming no outcome gives COMPLETED |
| SlurmTrap.RepairedStatus | MDWFutils/jobs/slurm_update_trap.py:100-119 | repaired, the status is the classification of the state and the script's exit status |
| SlurmTrap.FinalParamsWords | MDWFutils/jobs/slurm_update_trap.py:128-138 | with the range set and clean values, the final string splits into the range words: as written without `run_dir`, repaired with it |
| SlurmTrap.AsWrittenDropsRunDir | MDWFutils/jobs/slurm_update_trap.py:38-39 | as written a set `RUN_DIR` reaches the RUNNING update but no word of the final update has the key `run_dir` |
| SlurmTrap.BaseWordsKeys | MDWFutils/jobs/slurm_update_trap.py:130-133 | the range words carry `config_*` keys only |
| HmcHelpers.Arg | MDWFutils/jobs/hmc_helpers.py:19-73 | a non-empty argument is used, an empty one gives the default |
| HmcHelpers.DigitsOf | MDWFutils/jobs/hmc_helpers.py:28 | only digits are kept, and a text of digits is kept whole |
| HmcHelpers.LastAt | MDWFutils/jobs/hmc_helpers.py:28 | the last position at or before `i` where the prefix starts, with none later; none when the prefix starts nowhere up to `i` |
| HmcHelpers.AfterLast | MDWFutils/jobs/hmc_helpers.py:28 | what follows the last prefix is no longer than the text |
| HmcHelpers.ConfigNumber | MDWFutils/jobs/hmc_helpers.py:28 | the configuration number is all digits |
| HmcHelpers.LastAtFinds | MDWFutils/jobs/hmc_helpers.py:28 | a start with no later start up to `i` is the last one |
| HmcHelpers.ConfigNumberOfName | MDWFutils/jobs/hmc_helpers.py:28 | a name made of the prefix and digits, with no later prefix, gives back those digits |
| HmcHelpers.Configs | MDWFutils/jobs/hmc_helpers.py:24-33 | every collected number is non-empty and all digits |
| HmcHelpers.ConfigsCollect | MDWFutils/jobs/hmc_helpers.py:25-31 | every listed readable file with the prefix and digits after its last prefix is collected |
| HmcHelpers.CollectConfigs | MDWFutils/jobs/hmc_helpers.py:24-33 | the glob loop computes `Configs` |
| HmcHelpers.PickLatest | MDWFutils/jobs/hmc_helpers.py:36-64 | "0" when no collected configuration has both files; otherwise a collected configuration with both files whose value is the largest among those |
| HmcHelpers.FindLatestConfig | MDWFutils/jobs/hmc_helpers.py:18-65 | with the argument defaults applied, the largest collected configuration that has readable checkpoint and RNG files, else "0" |
| HmcHelpers.ValidateConfig | MDWFutils/jobs/hmc_helpers.py:69-110 | status 0 exactly when the configuration is non-empty and both files are readable; for a non-empty one at most two errors, none exactly when the status is 0 |
| HmcResubmit.AutoResubmit | MDWFutils/jobs/hmc_resubmit.py:23-28 | an empty `cfg_max` is exactly the no-resubmission case |
| HmcResubmit.AutoResubmitMeaning | MDWFutils/jobs/hmc_resubmit.py:36-48 | the next start is start plus `n_trajec`, and the job is queued again exactly when that is below `cfg_max` |
| HmcResubmit.Chain | MDWFutils/jobs/hmc_resubmit.py:23-48 | a chain starts at the first job's start |
| HmcResubmit.ChainSteps | MDWFutils/jobs/hmc_resubmit.py:36-48 | every job but the last queues the next, which starts `n` later; the last one's next start reaches `cfg_max` |
| HmcResubmit.ChainLength | MDWFutils/jobs/hmc_resubmit.py:36-48 | a chain has as many jobs as it takes `n`-trajectory steps to reach `cfg_max`, and at least one |
| HmcResubmit.NoTrajectoriesResubmitSame | MDWFutils/jobs/hmc_resubmit.py:36-43 | with `n_trajec` empty a job below `cfg_max` queues a job with its own start |
| HmcResubmit.MissingVars | MDWFutils/jobs/hmc_resubmit.py:53-57 | nothing is listed exactly when no value is empty; every empty value's name is listed, and only given names |
| HmcResubmit.MissingVarsExact | MDWFutils/jobs/hmc_resubmit.py:53-57 | with distinct names a name is listed exactly when its value is empty |
| HmcResubmit.RequiredVarsListed | MDWFutils/jobs/hmc_resubmit.py:53-57 | each of `cfg_max`, `n_trajec`, `batch` and `SLURM_JOBID` is reported exactly when it is empty |
| HmcResubmit.ValidateResubmitEnv | MDWFutils/jobs/hmc_resubmit.py:52-64 | the list is the empty required variables in order, and the status is 1 exactly when it is not empty |
| Registry.SnakeNoCapitals | MDWFutils/jobs/registry.py:48 | the snake-case name holds no capitals |
| Registry.StripSuffix | MDWFutils/jobs/registry.py:47 | a name ending in `ContextBuilder` loses exactly that suffix; any other name is kept |
| Registry.UnderscoredLower | MDWFutils/jobs/registry.py:48 | a text without capitals is only lowered |
| Registry.SnakeOfWords | MDWFutils/jobs/registry.py:48 | a name made of capitalised words becomes those words in lower case joined by `_` |
| Registry.StripSuffixOf | MDWFutils/jobs/registry.py:47 | a base followed by `ContextBuilder` gives the base back |
| Registry.TypeNameNotOverridden | MDWFutils/jobs/registry.py:44-49 | a name without an override gets the snake case of the name without the suffix |
| Registry.TypeNameOfWords | MDWFutils/jobs/registry.py:42-49 | a builder class `<Words>ContextBuilder` without an override gets its words in lower case joined by `_`, as `GluInputContextBuilder` gives `glu_input` |
| Registry.Discover | MDWFutils/jobs/registry.py:52-78 | the discovery loop computes the fold over the modules |
| Registry.AddClassesSound | MDWFutils/jobs/registry.py:63-76 | filing classes keeps every entry an eligible class under its type name, job builders exactly in the job map |
| Registry.DiscoveredSound | MDWFutils/jobs/registry.py:59-78 | discovery files only eligible classes, never a base or a non-builder, a job builder exactly when its job schema is not empty, each under its own type name |
| Registry.AddClassesGrows | MDWFutils/jobs/registry.py:73-76 | filing classes never removes a type name |
| Registry.AddModulesGrows | MDWFutils/jobs/registry.py:59-76 | scanning modules never removes a type name |
| Registry.AddClassesFiles | MDWFutils/jobs/registry.py:63-76 | an eligible class is filed under its type name in the map its job schema selects |
| Registry.DiscoveredComplete | MDWFutils/jobs/registry.py:59-78 | every eligible class of a scanned module is filed under its type name in the map its job schema selects |
| Registry.GetJobBuilder | MDWFutils/jobs/registry.py:91-97 | a job builder is found exactly when its type is in the job map, else the KeyError |
| Registry.GetInputBuilder | MDWFutils/jobs/registry.py:101-107 | an input builder is found exactly when its type is in the input map, else the KeyError |
| Registry.GetJobSchema | MDWFutils/jobs/registry.py:110-118 | both schemas are given exactly when the type is a job builder, else `(None, None)` |
| Registry.GetInputSchema | MDWFutils/jobs/registry.py:121-128 | a schema is given exactly when the type is an input builder |
| Registry.LookupMeaning | MDWFutils/jobs/registry.py:91-118 | on discovered maps a found job builder declares job parameters and has that type name, its schemas have distinct names, and an unknown type fails both lookups together |
| Command.BackendConnection | MDWFutils/cli/command.py:24-28 | a non-empty `MDWF_DB_URL` wins; else `MDWF_DB`, even when set to the empty string; else `mdwf_ensembles.db` |
| Command.BackendConnectionFrom | MDWFutils/cli/command.py:24-28 | the connection is always one of the two variables or the default file |
| Command.NothingStored | MDWFutils/cli/command.py:87-90 | without `--use-default-params` there are no stored defaults |
| Command.UnionEmpty | MDWFutils/cli/command.py:92-98 | merging onto nothing gives the command-line parameters |
| Command.MergeWins | MDWFutils/cli/command.py:94-98 | the merge keeps every key of both sides, a given key with its given value and every other stored key with its stored value |
| Command.MergedParams | MDWFutils/cli/command.py:87-98 | the merged parameters hold every command-line key with its value and every other stored key, and only the command line without `--use-default-params` |
| Command.AsVals | MDWFutils/cli/command.py:115-128 | the merged text parameters seen as values keep their keys and text |
| Command.TypedJob | MDWFutils/cli/command.py:122-126 | as intended: every merged or typed key is present, a typed value replaces its text, every other merged parameter stays as text |
| Command.TypedAsWritten | MDWFutils/cli/command.py:108-127 | as written: the typed parameters exist exactly when there is neither a builder schema (AttributeError) nor a command schema (TypeError), and then they are the merged text |
| Command.TypedBranchesRaise | MDWFutils/cli/command.py:108-127 | with a schema the code as written raises, while the intended merge keeps every merged key and lets a typed value win |
| Command.OutputPath | MDWFutils/cli/command.py:222-237 | an explicit output file is used as given; the path fails exactly when the ensemble's directory is needed and the record has no directory text |
| Command.LastSlashAppend | MDWFutils/cli/command.py:229-237 | appending `/name` puts the last `/` before the name |
| Command.JoinSplits | MDWFutils/cli/command.py:229-237 | joining a plain directory and a name without `/` gives a path whose parent is the directory and whose base name is the name |
| Command.JoinPlain | MDWFutils/cli/command.py:232 | joining a name that does not end in `/` gives a plain directory |
| Command.ContextOutput | MDWFutils/cli/command.py:225-229 | with a context output directory the script is `<prefix><suffix>` in exactly that directory, the prefix being the context's, else the job type, else `output` |
| Command.EnsembleOutput | MDWFutils/cli/command.py:230-237 | otherwise the script lands in the ensemble's `cnfg/slurm`, named after the job type and the ensemble's identifier when it has one |
| Command.Ancestry | MDWFutils/cli/command.py:233-239 | creating a directory with its parents creates the directory itself |
| Command.AncestryAbove | MDWFutils/cli/command.py:233-239 | and only directories it lies below |
| Command.Written | MDWFutils/cli/command.py:240-242 | the file holds the content, and is executable when asked or when it already was |
| Command.Disk.constructor | MDWFutils/cli/command.py:222 | the disk starts with the given directories and files |
| Command.Disk.MakeDirs | MDWFutils/cli/command.py:233-239 | the directories grow by exactly the path's ancestry |
| Command.Disk.WriteFile | MDWFutils/cli/command.py:222-243 | the path is `OutputPath`'s; a failure changes nothing; otherwise exactly that file is written and exactly the script directory's and the parent's ancestries are created |
| Command.WrittenFileExists | MDWFutils/cli/command.py:239-240 | after a write the file holds the content and its parent directory exists |
| Sqlite.NextId | MDWFutils/backends/sqlite.py:155-158 | the new row id is in no use, above every id in use, 1 for an empty table, and one past the largest id otherwise |
| Sqlite.NewId | MDWFutils/backends/sqlite.py:158 | the scan computes `NextId` |
| Sqlite.Rows | MDWFutils/backends/sqlite.py:161-165 | one parameter row per dict entry, under the owner's id, holding that entry's value |
| Sqlite.DropOwners | MDWFutils/backends/sqlite.py:359-363 | exactly the rows whose owner is not deleted remain, unchanged |
| Sqlite.OpsOf | MDWFutils/backends/sqlite.py:359-362 | the operations of one ensemble are exactly those recorded under its id |
| Sqlite.OtherOps | MDWFutils/backends/sqlite.py:362 | exactly the operations of every other ensemble remain, unchanged |
| Sqlite.Assignments | MDWFutils/backends/sqlite.py:381-389 | a status or directory assignment is made exactly when that argument is truthy, and there is none exactly when both are empty or absent |
| Sqlite.PlanAsWritten | MDWFutils/backends/sqlite.py:376-392 | no statement exactly when both arguments are `None`; the malformed `SET  WHERE` statement exactly when an argument is given but none is truthy |
| Sqlite.UpdatePlan | MDWFutils/backends/sqlite.py:376-392 | as intended there is never a malformed statement, and nothing is run exactly when neither argument is truthy |
| Sqlite.EmptyStatusPlan | MDWFutils/backends/sqlite.py:376-392 | an empty status and no directory reach the malformed statement as written, and nothing as intended |
| Sqlite.PlansAgree | MDWFutils/backends/sqlite.py:376-392 | wherever the code as written builds a well-formed statement, the intended plan is the same |
| Sqlite.Revise | MDWFutils/backends/sqlite.py:95 | the revision fails exactly when a status text breaks the status `CHECK` constraint, and keeps the description |
| Sqlite.RowOf | MDWFutils/backends/sqlite.py:476-491 | a row is read exactly when it is present, with its value |
| Sqlite.SetRow | MDWFutils/backends/sqlite.py:406-412 | a given integer is written as the text of its row, every other row stays, and nothing changes for a bound not given |
| Sqlite.WithRange | MDWFutils/backends/sqlite.py:451-463 | only given bounds add rows, and other ensembles' rows are untouched |
| Sqlite.RangeReadBack | MDWFutils/backends/sqlite.py:436-492 | reading the range back gives each given bound as text and keeps each bound not given |
| Sqlite.PromotionPlan | MDWFutils/backends/sqlite.py:372-395 | promoting with a non-empty directory is one statement assigning both columns, after which the row holds the new status and directory and keeps its description |
| Sqlite.Store.constructor | MDWFutils/backends/sqlite.py:74-130 | the database starts with four empty tables |
| Sqlite.Store.FindByDirectory | MDWFutils/backends/sqlite.py:174-183 | an id is found exactly when an ensemble has that directory, and it is that ensemble's |
| Sqlite.Store.AddEnsemble | MDWFutils/backends/sqlite.py:137-169 | a recorded directory gives its id and `False` and writes nothing; otherwise a TUNING row under the next id with one parameter row per entry, or nothing at all when a stale parameter row breaks the insert |
| Sqlite.Store.UpdateOperation | MDWFutils/backends/sqlite.py:271-347 | an unknown ensemble writes nothing; a truthy id updates that row's status and user; otherwise an operation of the same ensemble, type and `slurm_job` is updated or a new one inserted under the next id; the params are then upserted one row per key |
| Sqlite.Store.RemoveEnsemble | MDWFutils/backends/sqlite.py:352-367 | the ensemble's operation parameters, operations, parameters and row are deleted, and nothing else |
| Sqlite.Store.ClearEnsembleHistory | MDWFutils/backends/sqlite.py:560-589 | an unknown ensemble gives `(0, False)` and writes nothing; otherwise the ensemble's operations and their parameters are deleted, their number is returned, and everything else is kept |
| Sqlite.Store.UpdateEnsemble | MDWFutils/backends/sqlite.py:372-395 | no argument changes nothing; the malformed statement fails; otherwise the row gets the assignments unless the status `CHECK` or the directory `UNIQUE` constraint refuses them; a missing row changes nothing; no other table changes |
| Sqlite.Store.SetEnsembleParameter | MDWFutils/backends/sqlite.py:400-415 | exactly one row is inserted or replaced; nothing else changes |
| Sqlite.Store.DeleteEnsembleParameter | MDWFutils/backends/sqlite.py:420-432 | exactly that row is removed if present; nothing else changes |
| Sqlite.Store.SetConfigurationRange | MDWFutils/backends/sqlite.py:436-463 | `True` exactly when some bound is given; the rows become `WithRange`'s |
| Sqlite.Store.GetConfigurationRange | MDWFutils/backends/sqlite.py:467-492 | each bound is present exactly when its `cfg_*` row is |
| Sqlite.Store.GetEnsembleIdByNickname | MDWFutils/backends/sqlite.py:495-517 | an id is found exactly when some `nickname` row holds the text, and the found id's row does |
| Sqlite.Store.ParamsOf | MDWFutils/backends/sqlite.py:209-213 | the ensemble's parameters are exactly its rows, by name |
| Sqlite.Store.GetEnsembleDetails | MDWFutils/backends/sqlite.py:188-227 | details exactly for a recorded id: its directory, status, parameters and number of operations |
| Sqlite.Store.ResolveEnsembleIdentifier | MDWFutils/backends/sqlite.py:608-656 | details exactly with an id, which is recorded; an integer or integer text is the id; other text is the resolved directory, then the directory as given, then a nickname |
| LegacyDb.UpdateOperation | MDWFutils/db.py:238-290 | an unknown ensemble writes nothing; a truthy id updates that row's status; anything else inserts a new operation under the next id, with no `slurm_job` match; the params are upserted one row per key |
| Mongo.Field | MDWFutils/backends/mongodb.py:72-127 | a missing field reads as null, as a query and a non-sparse index see it |
| Mongo.Segments | MDWFutils/backends/mongodb.py:225-231 | a dotted path has at least one segment |
| Mongo.SetThenGet | MDWFutils/backends/mongodb.py:161 | a path that `$set` sets reads back its value |
| Mongo.SetFails | MDWFutils/backends/mongodb.py:161 | `$set` of a path fails exactly when a proper prefix of it holds a value that is not a document |
| Mongo.NothingBlocks | MDWFutils/backends/mongodb.py:161 | a path whose first field is missing meets nothing on the way |
| Mongo.UnsetThenGet | MDWFutils/backends/mongodb.py:240-243 | an unset path reads as missing |
| Mongo.SetLeavesApart | MDWFutils/backends/mongodb.py:161 | `$set` of one path leaves every path apart from it as it was |
| Mongo.ApplyAllLeaves | MDWFutils/backends/mongodb.py:161 | a path apart from every path of the update document is left as it was |
| Mongo.ApplyAllReadBack | MDWFutils/backends/mongodb.py:161 | after an accepted update document every path reads back the value set at it |
| Mongo.OptText | MDWFutils/backends/mongodb.py:106-108 | a missing text is stored as null, and only then |
| Mongo.Validated | MDWFutils/backends/mongodb.py:94-98 | a validated payload has the given directory and valid physics, and the two named arguments were not passed again |
| Mongo.EnsembleDoc | MDWFutils/backends/mongodb.py:103-116 | the intended document has the new id and the directory, and a nickname field exactly when there is a nickname |
| Mongo.AsWrittenEnsembleDoc | MDWFutils/backends/mongodb.py:103-116 | the document as written has the new id, the directory and always a nickname field, null when there is no nickname |
| Mongo.AsWrittenUnnamedCollide | MDWFutils/backends/mongodb.py:73-121 | as written, two ensembles without a nickname collide in the sparse unique nickname index whatever their directories |
| Mongo.AsWrittenSecondUnnamedRefused | MDWFutils/backends/mongodb.py:73-121 | as written, once one ensemble without a nickname is stored, every later one without a nickname is refused |
| Mongo.EnsembleDocsCollide | MDWFutils/backends/mongodb.py:72-121 | with the field left out when there is no nickname, two ensembles collide exactly on a shared directory or a shared nickname |
| Mongo.Popped | MDWFutils/backends/mongodb.py:300-320 | the popped fields are exactly the arguments asked for, each with its value or default |
| Mongo.SlurmDoc | MDWFutils/backends/mongodb.py:300-309 | the `slurm` section holds the job id, the user and each popped SLURM field |
| Mongo.Rest | MDWFutils/backends/mongodb.py:321 | what is left under `params` is exactly the arguments that are not reserved |
| Mongo.OperationDoc | MDWFutils/backends/mongodb.py:287-322 | the document carries the ids, the `slurm`, `execution` and `chain` sections of the popped arguments, and the rest under `params` |
| Mongo.OperationDocRoutes | MDWFutils/backends/mongodb.py:300-321 | every keyword argument ends up in one place: a reserved one in its section, with its default when absent, any other under `params`, and none reserved under `params` |
| Mongo.GetInSection | MDWFutils/backends/mongodb.py:300-321 | a field of a section is read through the section |
| Mongo.Sub | MDWFutils/backends/mongodb.py:206-210 | `get(k, {})` gives an empty document for a missing field, the sub-document for a document, and fails on any other value |
| Mongo.DotFree | MDWFutils/backends/mongodb.py:225 | the fixed field names hold no dot |
| Mongo.LeafSegments | MDWFutils/backends/mongodb.py:225-231 | a default-parameter path splits into its four fields when the job type and variant hold no dot |
| Mongo.GetAtChain | MDWFutils/backends/mongodb.py:206-213 | a value at `a.b.c.e` is what the chain of `get` calls finds |
| Mongo.SetThenGetDefaults | MDWFutils/backends/mongodb.py:196-235 | what `set_default_params` stores `get_default_params` reads back, for a job type and variant without dots |
| Mongo.VariantSegments | MDWFutils/backends/mongodb.py:239 | the variant path splits into its three fields |
| Mongo.DeleteThenGetDefaults | MDWFutils/backends/mongodb.py:196-244 | after `delete_default_params` a variant whose lookup succeeded reads as empty parameters |
| Mongo.UnsetDefaultsClears | MDWFutils/backends/mongodb.py:206-242 | unsetting the variant makes both parameters read as empty |
| Mongo.UnsetVariant | MDWFutils/backends/mongodb.py:242 | unsetting a variant removes exactly that variant from its job type |
| Mongo.ListedDefaults | MDWFutils/backends/mongodb.py:246-266 | every listed entry is a considered variant with the parameters `get_default_params` returns, and every considered variant is listed |
| Mongo.OperationSet | MDWFutils/backends/mongodb.py:334-351 | the `$set` document is well formed |
| Mongo.OperationSetContents | MDWFutils/backends/mongodb.py:334-351 | it holds the keyword arguments, and the status and the update time unless an argument overrides them |
| Mongo.OperationSetKeys | MDWFutils/backends/mongodb.py:334-351 | it sets the status, the update time and the keyword arguments, and nothing else |
| Mongo.OpsOf | MDWFutils/backends/mongodb.py:188 | the operations of an ensemble are exactly those carrying its id |
| Mongo.WithoutOps | MDWFutils/backends/mongodb.py:188 | exactly the other ensembles' operations remain, unchanged |
| Mongo.ClearKeepsOthers | MDWFutils/backends/mongodb.py:364-366 | clearing leaves the ensemble no operations, keeps every other ensemble's, and removes as many as it counts |
| Mongo.Ascending | MDWFutils/backends/mongodb.py:168 | the ids in ascending order, each once |
| Mongo.EnsembleEntry | MDWFutils/backends/mongodb.py:169-181 | a listing entry copies the id, the directory and the nickname, and the detailed sections when asked |
| Mongo.MeasurementDoc | MDWFutils/backends/mongodb.py:398-405 | the measurement carries its ensemble, configuration and type, and an empty metadata document when none is given |
| Mongo.Select | MDWFutils/backends/mongodb.py:417-424 | exactly the wanted measurements are kept, each at most as often as stored |
| Mongo.InsertByConfig | MDWFutils/backends/mongodb.py:426 | inserting keeps the order by configuration number |
| Mongo.InsertByConfigAdds | MDWFutils/backends/mongodb.py:426 | inserting adds exactly the one document |
| Mongo.SortByConfig | MDWFutils/backends/mongodb.py:426 | the sort is ordered by configuration number and a permutation of its input |
| Mongo.FirstSegment | MDWFutils/backends/mongodb.py:225-231 | the top-level field of a dotted path is its first segment |
| Mongo.ApplyAllKeeps | MDWFutils/backends/mongodb.py:161 | an update whose every path starts elsewhere leaves a top-level field as it was |
| Mongo.UnsetKeeps | MDWFutils/backends/mongodb.py:242 | `$unset` of a path leaves the top-level fields it does not start at |
| Mongo.IndexedReplace | MDWFutils/backends/mongodb.py:72-74 | replacing a document by one that keeps its id and clashes with no other keeps the unique indexes |
| Mongo.IndexedKeep | MDWFutils/backends/mongodb.py:72-74 | an update that changes no indexed field keeps the unique indexes |
| Mongo.OtherMeasurements | MDWFutils/backends/mongodb.py:189 | exactly the other ensembles' measurements remain, each at most as often as stored |
| Mongo.DefaultsFirstSegment | MDWFutils/backends/mongodb.py:225-242 | every default-parameter path starts at `default_params` |
| Mongo.SetDefaultsKeeps | MDWFutils/backends/mongodb.py:226-234 | `set_default_params` touches neither the id, nor the directory, nor the nickname |
| Mongo.OperationSetPaths | MDWFutils/backends/mongodb.py:334-336 | the status and update-time paths start elsewhere than at the operation id |
| Mongo.SetOperationKeepsId | MDWFutils/backends/mongodb.py:337-360 | an update avoiding `operation_id` keeps every operation under its own id |
| Mongo.OperationUpdateKeepsIds | MDWFutils/backends/mongodb.py:328-361 | an operation update whose arguments leave `operation_id` alone keeps every operation under its id |
| Mongo.SlurmTarget | MDWFutils/backends/mongodb.py:354-360 | the operation changed is the first match, and there is none exactly when nothing matches |
| Mongo.FirstSlurmMatchUnique | MDWFutils/backends/mongodb.py:360 | at most one operation is the first match |
| Mongo.SetOperationReadBack | MDWFutils/backends/mongodb.py:334-338 | after an accepted update every path of the `$set` document reads back its value |
| Mongo.DocsAt | MDWFutils/backends/mongodb.py:372-374 | the documents under a sequence of ids, in its order |
| Mongo.ListedInOrder | MDWFutils/backends/mongodb.py:168 | documents listed by ascending ids carry ascending ids |
| Mongo.ListedAll | MDWFutils/backends/mongodb.py:168 | every document whose id is listed is in the listing |
| Mongo.OperationsListing | MDWFutils/backends/mongodb.py:369-374 | one entry per operation of the ensemble, each of that ensemble |
| Mongo.Backend.ListOperations | MDWFutils/backends/mongodb.py:369-374 | the backend's listing holds every operation of the ensemble, in ascending operation id |
| Mongo.OperationsListingOrdered | MDWFutils/backends/mongodb.py:372 | the listing is sorted by operation id |
| Mongo.OperationsListingComplete | MDWFutils/backends/mongodb.py:372 | no operation of the ensemble is left out |
| Mongo.Entries | MDWFutils/backends/mongodb.py:168-182 | one entry per ensemble, carrying its id |
| Mongo.EnsemblesListing | MDWFutils/backends/mongodb.py:165-183 | the listing has one entry per ensemble |
| Mongo.Backend.ListEnsembles | MDWFutils/backends/mongodb.py:165-183 | the backend's listing has an entry for every ensemble |
| Mongo.EnsemblesListingOrdered | MDWFutils/backends/mongodb.py:168 | the listing is sorted by ensemble id |
| Mongo.EnsemblesListingComplete | MDWFutils/backends/mongodb.py:168-182 | every ensemble has an entry |
| Mongo.Backend.constructor | MDWFutils/backends/mongodb.py:48-87 | the backend starts over empty collections with the indexes in place |
| Mongo.Backend.AddEnsemble | MDWFutils/backends/mongodb.py:93-123 | an invalid payload is refused; otherwise the next id's document, with a null nickname when there is none, is inserted unless it clashes in a unique index, which is reported as an existing ensemble and stores nothing |
| Mongo.Backend.InsertEnsemble | MDWFutils/backends/mongodb.py:100-123 | the insertion step stores the document under the next id unless it clashes |
| Mongo.Backend.GetEnsemble | MDWFutils/backends/mongodb.py:126-131 | a document exactly for a stored id, and it is that ensemble's |
| Mongo.Backend.ResolveEnsembleIdentifier | MDWFutils/backends/mongodb.py:133-157 | an integer naming a stored ensemble comes first; then, for text, the ensemble with the resolved directory, then the one with the nickname; otherwise not found |
| Mongo.Backend.UpdateEnsemble | MDWFutils/backends/mongodb.py:159-162 | a refused update changes nothing; an unknown id gives false; otherwise the document becomes the applied update, and the result says whether it changed |
| Mongo.Backend.DeleteEnsemble | MDWFutils/backends/mongodb.py:185-190 | the ensemble, its operations and its measurements go; true exactly when the ensemble was there |
| Mongo.Backend.GetDefaultParams | MDWFutils/backends/mongodb.py:195-214 | an unknown ensemble is refused; otherwise the variant's parameters, empty when missing |
| Mongo.Backend.SetDefaultParams | MDWFutils/backends/mongodb.py:216-235 | a refused path changes nothing; an unknown id gives false; otherwise the document gets both parameters, and the result says whether it changed |
| Mongo.Backend.DeleteDefaultParams | MDWFutils/backends/mongodb.py:237-244 | a refused path changes nothing; an unknown id gives false; otherwise the variant is unset, and the result says whether the document changed |
| Mongo.Backend.ListDefaultParams | MDWFutils/backends/mongodb.py:246-266 | an unknown ensemble is refused; otherwise the listing of its document |
| Mongo.Backend.AddOperation | MDWFutils/backends/mongodb.py:271-325 | an unknown ensemble, or one without a directory, is refused; otherwise the document is inserted under the next operation id |
| Mongo.Backend.UpdateOperationById | MDWFutils/backends/mongodb.py:327-338 | the operation with that id gets the `$set` document |
| Mongo.Backend.UpdateOperationAt | MDWFutils/backends/mongodb.py:349-351 | the `$set` document, built from the status, the update time and the updates, is applied to the chosen operation, keeping the id index |
| Mongo.Backend.FindSlurmMatch | MDWFutils/backends/mongodb.py:354-360 | the scan finds `SlurmTarget` |
| Mongo.Backend.UpdateOperationBySlurmId | MDWFutils/backends/mongodb.py:340-361 | the first operation with that job, ensemble and type gets the `$set` document |
| Mongo.Backend.ClearEnsembleHistory | MDWFutils/backends/mongodb.py:363-366 | the ensemble's operations go, and the count is how many |
| Mongo.Backend.GetOperation | MDWFutils/backends/mongodb.py:376-384 | an operation exactly when that id belongs to the ensemble |
| Mongo.Backend.AddMeasurement | MDWFutils/backends/mongodb.py:389-407 | exactly the measurement document is appended |
| Mongo.Backend.QueryMeasurements | MDWFutils/backends/mongodb.py:409-429 | the wanted measurements, ordered by configuration number, each exactly as often as stored |
| Migrate.MaybeInt | scripts/migrate_sqlite_to_mongo.py:169-175 | a missing value is null and only then; text `int()` accepts becomes that integer; any other text is kept unchanged |
| Migrate.MaybeIntNumeral | scripts/migrate_sqlite_to_mongo.py:169-175 | the text of an integer comes back as that integer |
| Migrate.CastOr | scripts/migrate_sqlite_to_mongo.py:51-56 | the cast value of the field's kind, or the text itself when the cast fails |
| Migrate.Physics | scripts/migrate_sqlite_to_mongo.py:50-56 | exactly the parameters named in the physics fields appear, each cast or kept as text |
| Migrate.PhysicsFallback | scripts/migrate_sqlite_to_mongo.py:53-56 | a physics parameter that does not parse is carried over as text |
| Migrate.Configurations | scripts/migrate_sqlite_to_mongo.py:57-60 | exactly the `cfg_*` parameters present appear, renamed, each through `_maybe_int` |
| Migrate.ConfigurationsFirst | scripts/migrate_sqlite_to_mongo.py:58-60 | `cfg_first` holding an integer's text becomes `first` with that integer |
| Migrate.CreatedAt | scripts/migrate_sqlite_to_mongo.py:66 | null for a missing or empty time; the migration fails exactly when a present time does not parse |
| Migrate.BaseEnsembleDoc | scripts/migrate_sqlite_to_mongo.py:61-72 | the document carries the row's id and directory and no nickname |
| Migrate.EnsembleDocOf | scripts/migrate_sqlite_to_mongo.py:61-76 | it fails exactly when the creation time fails; otherwise it has the id and directory, and a nickname exactly when the parameter is not empty |
| Migrate.EachOk | scripts/migrate_sqlite_to_mongo.py:44-77 | a loop that succeeds gives one document per row |
| Migrate.EachOkPrefix | scripts/migrate_sqlite_to_mongo.py:48-76 | once a prefix of the rows fails, the whole loop fails the same way |
| Migrate.EachOkAt | scripts/migrate_sqlite_to_mongo.py:48-76 | each row gives its own document, in order |
| Migrate.EachOkFail | scripts/migrate_sqlite_to_mongo.py:48-76 | the loop fails exactly when some row fails, and then with that row's error |
| Migrate.EnsembleDocsFail | scripts/migrate_sqlite_to_mongo.py:43-77 | building fails exactly when some creation time does not parse, and then with the `fromisoformat` error |
| Migrate.EnsembleDocsAt | scripts/migrate_sqlite_to_mongo.py:43-77 | otherwise each row gives its own document, in order |
| Migrate.CollectOk | scripts/migrate_sqlite_to_mongo.py:44-77 | the loop computes `EachOk` |
| Migrate.BuildEnsembleDocs | scripts/migrate_sqlite_to_mongo.py:43-77 | `build_ensemble_docs` computes the ensemble documents of the rows |
| Migrate.ById | scripts/migrate_sqlite_to_mongo.py:191 | every document's id is a key, and every key maps to a document with that id |
| Migrate.ByIdLast | scripts/migrate_sqlite_to_mongo.py:191 | the last document with an id is the one kept |
| Migrate.MaybeDatetime | scripts/migrate_sqlite_to_mongo.py:178-184 | null for a missing, empty or unparsable time, otherwise the parsed time |
| Migrate.Get | scripts/migrate_sqlite_to_mongo.py:113-129 | `params.get(k)` is present exactly when the key is |
| Migrate.Attempt | scripts/migrate_sqlite_to_mongo.py:130 | the attempt number is never falsy: the converted parameter or 1 |
| Migrate.AttemptDefault | scripts/migrate_sqlite_to_mongo.py:130 | a missing or zero attempt number becomes 1; any other number is kept |
| Migrate.ChainMemberMeaning | scripts/migrate_sqlite_to_mongo.py:131 | a chain member exactly when the parameter is `true` in any mix of cases; missing reads as `false` |
| Migrate.ParamsDoc | scripts/migrate_sqlite_to_mongo.py:133-154 | exactly the parameters that are not reserved, as text |
| Migrate.EnsembleDirectory | scripts/migrate_sqlite_to_mongo.py:98-102 | the directory of the operation's ensemble, null when that ensemble is not migrated |
| Migrate.OperationDocOf | scripts/migrate_sqlite_to_mongo.py:99-155 | the document carries the operation's id and its ensemble's id |
| Migrate.Each | scripts/migrate_sqlite_to_mongo.py:95-157 | the loop gives one document per row |
| Migrate.EachAt | scripts/migrate_sqlite_to_mongo.py:96-156 | each row gives its own document, in order |
| Migrate.Collect | scripts/migrate_sqlite_to_mongo.py:95-157 | the loop computes `Each` |
| Migrate.BuildOperationDocs | scripts/migrate_sqlite_to_mongo.py:89-157 | `build_operation_docs` computes the operation documents of the rows |
| Migrate.OperationDocDirectory | scripts/migrate_sqlite_to_mongo.py:98-102 | an operation document names its ensemble's directory |
| Migrate.OperationDocChain | scripts/migrate_sqlite_to_mongo.py:128-132 | the chain sub-document is built from the parameters |
| Migrate.OperationDocParams | scripts/migrate_sqlite_to_mongo.py:133-154 | the params sub-document is the unreserved parameters |
| Migrate.OperationDocsAt | scripts/migrate_sqlite_to_mongo.py:89-157 | one document per operation row, each its own, in order |
| Migrate.UpsertEnsembles | scripts/migrate_sqlite_to_mongo.py:198-199 | when every upsert succeeds, the count is the number of documents |
| Migrate.UpsertEnsemblesIndexed | scripts/migrate_sqlite_to_mongo.py:198-199 | the upserts keep the unique indexes |
| Migrate.UpsertEnsemblesStores | scripts/migrate_sqlite_to_mongo.py:198-199 | after upserts that all succeed, each id holds its last document, and every other ensemble is untouched |
| Migrate.UpsertOperationsIndexed | scripts/migrate_sqlite_to_mongo.py:200-201 | the upserts keep every operation under the id it carries |
| Migrate.UpsertOperationsStores | scripts/migrate_sqlite_to_mongo.py:200-201 | each id holds its last document, and every other operation is untouched |
| Migrate.WriteEnsembles | scripts/migrate_sqlite_to_mongo.py:198-199 | the loop stores what `UpsertEnsembles` gives |
| Migrate.WriteOperations | scripts/migrate_sqlite_to_mongo.py:200-201 | the loop stores what `UpsertOperations` gives |
| Migrate.EnsembleDocsKeyed | scripts/migrate_sqlite_to_mongo.py:61-62 | the built ensemble documents carry their numeric ids |
| Migrate.OperationDocsKeyed | scripts/migrate_sqlite_to_mongo.py:99-100 | the built operation documents carry their numeric ids |
| Migrate.MigrationWritesNothing | scripts/migrate_sqlite_to_mongo.py:187-196 | a dry run, or a creation time that does not parse, writes nothing |
| Migrate.MigrationKeepsIndexes | scripts/migrate_sqlite_to_mongo.py:187-202 | a migration keeps the unique indexes of ensembles and operations |
| Migrate.Migrate | scripts/migrate_sqlite_to_mongo.py:187-202 | `migrate` on rows already read: the collections and counts `Migration` gives, or the error |
| FileTree.Moved | MDWFutils/cli/commands/promote_ensemble.py:109 | every directory outside the source is kept, and every one under it reappears under the target |
| FileTree.MovedFrom | MDWFutils/cli/commands/promote_ensemble.py:109 | every directory after the move was kept or is the image of a moved one |
| FileTree.MovedSourceGone | MDWFutils/cli/commands/promote_ensemble.py:109 | the source is gone unless it lies under the target |
| FileTree.ImageUnder | MDWFutils/cli/commands/promote_ensemble.py:109 | a moved directory lands at or under the target |
| FileTree.LastSlash | MDWFutils/cli/commands/promote_ensemble.py:108 | the position of the last `/`, none exactly when there is none |
| FileTree.Parent | MDWFutils/cli/commands/promote_ensemble.py:108 | `Path.parent`: the text before the last `/`, or `/` for a top-level path |
| FileTree.Tree.constructor | MDWFutils/cli/commands/promote_ensemble.py:108-109 | the tree starts with the given directories |
| FileTree.Tree.MakeDir | MDWFutils/cli/commands/promote_ensemble.py:108 | `mkdir(exist_ok=True)` adds exactly that directory |
| FileTree.Tree.Move | MDWFutils/cli/commands/promote_ensemble.py:109 | `shutil.move` leaves the directories `Moved` gives |

## Left out

- Connections, transactions, WAL and journal pragmas, busy timeouts, and the retry decorators with their sleeps are not modelled. They are engine I/O. A failed statement is modelled as leaving the tables unchanged.
- Concurrent writers and the race in "largest id plus one" id assignment are not modelled. The model is sequential.
- Floating-point arithmetic is not modelled: kappa = 1/(2m+8) and the file modification-time comparisons of the configuration scan. Physics values are kept as decimal text.
- File contents, `chmod` and subprocess calls are not modelled. Directory creation and moves are a set of paths (`FileTree`).
- Output text is not modelled: the printed histories, listings, help text and error messages on stderr.
- Jinja2 templates, Pydantic internals and the SBATCH text templates of the generators are not modelled. Only the parameters handed to them are.
- `ParameterManager.load_defaults`/`save_defaults` read and write files. `ScriptGenerator` only delegates to the registry. Neither is modelled beyond the registry lookups.
- Command.TypedJob models the intended merge `{**merged_job, **typed_job}`, with the typed values as an input. As written, `execute` in `cli/command.py` never reaches that merge when there is a schema: a builder schema calls `apply_defaults_and_validate`, which the help generator does not define, and a command schema calls the two-parameter static `validate_and_cast` with three arguments. `Command.TypedAsWritten` models that; see "## Findings". The validated values themselves are not computed here.
- `nickname.py`, `scan_configs.py`, `add_ensemble.py`, `zv.py` and `cli/ensemble_utils.py` import functions from `db.py` that it does not define. `zv.py` and `ensemble_utils.py` import `resolve_ensemble_identifier`. `promote_ensemble.py` and `clear_history.py` import `ensemble_utils.py`, so as written `promote-ensemble` and `clear-history` fail when their module is imported. Those calls are modelled with the `backends/sqlite.py` functions of the same names: `Zv.DoZv`, `Promote.DoPromote` and `Nickname.DoNickname` resolve the ensemble with `Sqlite.Store.ResolveEnsembleIdentifier`.
- Sqlite.Store.GetEnsembleIdByNickname: `LIMIT 1` without `ORDER BY` may return any matching row, so the model picks any match and the contract promises only that.
- The command-line `resolve` order is integer id, then directory, then nickname, as the code has it.
- Text.Strip and Text.IsSpace treat only ASCII whitespace as space. Python's `str.strip` also strips Unicode whitespace.
- Text.ParseInt accepts an optional sign and ASCII decimal digits within optional surrounding whitespace. It rejects the underscores (`1_000`) and non-ASCII digits that `int()` accepts.
- Pattern.DigitRun reads ASCII digits only. In a Python `str` pattern `\d` matches any Unicode decimal digit, such as `٣`.
- Schema.Cast and Migrate.CastOr cast to float only from decimal notation. `float("1e5")`, `float("inf")` and `float("nan")` are treated as failed casts, so the text is kept.
- Validators.PosFloat reads a float field in decimal notation only. Pydantic's `float` field with `gt=0` also accepts exponent notation such as `1e-3` and `inf`, which the model refuses.
- Meson2pt.QuarkMasses reads `ml`, `ms` and `mc` in decimal notation only. `float(p['ml'])` also accepts `1e-3` and `inf`, which the model refuses.
- Zv.LiteralEval evaluates only `True`, `False`, `None`, signed decimal integers (no leading zero) and strings in one kind of quote that hold neither that quote nor a backslash. Everything else that `ast.literal_eval` evaluates is kept as the raw text. That covers floats (`1e0`), hexadecimal, octal and binary integers (`0x10`, `0o17`, `0b1`), underscores in numerals (`1_000`), complex numbers (`1j`), adjacent strings (`'a''b'`), bytes (`b'x'`), escape sequences, and lists, tuples, dicts and sets (`[0,0,0]`, `{1}`). The generated WIT input then holds `0x10` where the program writes `16`.
- Meson2pt.Meson2ptPlan covers the argument checks, the script path and the parameter text. It does not cover the ensemble-record lookup, the WIT input and template rendering, the directories created, or their error paths.
- Mongo.Backend.UpdateEnsemble requires that no update path starts at `ensemble_id`. The source accepts such an update, but the model keys documents by that id.
- Mongo.Backend.UpdateOperationBySlurmId requires that no keyword argument starts at `operation_id`. The source has no `operation_id` parameter, so `operation_id=7` reaches `**updates` and is `$set` on the document; the model keys operations by that id and does not re-key them.
- Mongo.Backend.UpdateOperationAt and Mongo.Backend.UpdateOperationById carry the same requirement: a `$set` on `operation_id` or on a path below it would re-key the document, which the id-keyed map of operations does not represent.
- Hmc.ApplyOverride treats an override key as the name of a text child of `HMCparameters` or of `MD`. `root.find(key)` in the source takes an ElementPath, so `MD/trajL` reaches a nested element there and nothing in the model. The key may also name a container element: `MD` is found by `root.find('MD')` and `name` by `root.find('MD/name')`, and the source then sets that element's text. The model keeps no text for containers, so those keys leave the element unchanged.
- SlurmTrap.PollTries and HmcResubmit.ShellInt read bash arithmetic operands as signed decimal numerals. Octal (`010`), hexadecimal and variable-name operands are not modelled.
- HmcHelpers.FindLatestConfig matches the configuration prefix literally. In the `sed` expression of the source it is a regular expression, where `.` matches any character.
- `hmc_list_configs` is not modelled. It only reports to stderr.
- `mdwf_query_state_once`: the fallback from `sacct` on the batch step to `sacct` on the job to `scontrol` is one answer per poll, given as a parameter.
- Nested.UpdateNested is modelled on values: the recursive update returns the new dict rather than changing the caller's dict in place, so aliasing of sub-dicts is not captured.
- Promote.DoPromote creates only the parent of the target directory, not every missing ancestor. The database update made by the promotion's subprocess is not modelled; its exit status is a parameter.

## Findings

| source | as written | input that shows it | evidently intended | confidence | as-written member | corrected member |
|---|---|---|---|---|---|---|
| MDWFutils/cli/commands/hmc_script.py:121 | `generate_hmc_slurm_gpu(**sbatch_args)` passes every job parameter, including `cfg_max` and `resubmit`, which the generator does not take | any job parameters that pass the required-key check | pass only the arguments the generator accepts, so the batch script is written | high, not executed | HmcScript.RunAsWrittenFails | HmcScript.ScriptPath |
| MDWFutils/jobs/slurm_update_trap.py:53-54 | `local EXIT_CODE=$?` runs after `trap - EXIT`, so it is always 0 | a job RUNNING in accounting whose script exits with status 1 is logged COMPLETED | capture the script's exit status before anything else runs, so the job is logged FAILED | high, not executed | SlurmTrap.AsWrittenFailureLogged | SlurmTrap.RepairedStatus |
| MDWFutils/jobs/slurm_update_trap.py:137-138 | the `run_dir` assignment is followed on the same line by pasted prose, so bash runs it as a prefix assignment to a command that is not found | `SC=1 EC=5 RUN_DIR=/r`: the final update has no `run_dir=/r` word | append `run_dir=$RUN_DIR` to the final update, as the RUNNING update does | high, not executed | SlurmTrap.AsWrittenDropsRunDir | SlurmTrap.FinalParamsWords |
| MDWFutils/backends/sqlite.py:376-392 | the guard rejects only `None` for both fields, but the assignments test truthiness | `status=""`, `directory=None`: `UPDATE ensembles SET  WHERE id=?`, an SQL syntax error | report no update when there is nothing to assign | high, not executed | Sqlite.EmptyStatusPlan | Sqlite.UpdatePlan |
| MDWFutils/backends/mongodb.py:103-121 | the document always has a `nickname` field, `None` when there is none, and the sparse unique index still indexes a null value | two `add_ensemble` calls without a nickname, with different directories: the second raises DuplicateKeyError, reported as "Ensemble already exists" | leave the field out when there is no nickname, so only a shared directory or nickname collides | high, not executed | Mongo.AsWrittenSecondUnnamedRefused | Mongo.EnsembleDocsCollide |
| MDWFutils/cli/command.py:108-127 | a schema sends the parameters to `apply_defaults_and_validate`, which does not exist, or to the two-parameter static `validate_and_cast` with three arguments | any job type whose builder declares a job schema, or a command with a job schema: AttributeError or TypeError | validate and cast the parameters, then merge them over the text ones | high, not executed | Command.TypedBranchesRaise | Command.TypedJob |
| MDWFutils/cli/commands/add_ensemble.py:128-147 | without `--directory` the roots are created and the path is formatted from `pdict` before the required-keys check | `-p "beta=6.0"` without `--directory`: both roots are created, then `KeyError: 'b'` | check the required keys first, report the missing ones and create nothing | high, not executed | AddEnsemble.BuiltPathKeyError | AddEnsemble.Prepare |
