/** The builder registry (`jobs/registry.py`): the context-builder classes
    of the job modules are found, named by a snake-case type name, and
    filed as job builders when they declare job parameters and as input
    builders otherwise; the lookups answer from those two maps. Importing
    modules and instantiating classes are not modelled: a module is the
    list of classes `inspect.getmembers` gives for it. */
module Registry {
  import opened Wrappers
  import opened Text
  import Schema

  /** A class found in a job module: its name, whether it is a
      `ContextBuilder` subclass, and its two schema attributes. */
  datatype BuilderClass = BuilderClass(name: string, isBuilder: bool,
                                       jobSchema: Option<seq<Schema.Param>>,
                                       inputSchema: Option<seq<Schema.Param>>)

  /** A module of the jobs package and the classes it defines or imports. */
  datatype JobModule = JobModule(name: string, isPackage: bool, classes: seq<BuilderClass>)

  const SkipModules: set<string> := {"registry", "schema", "utils", "__init__", "hmc_helpers", "hmc_resubmit"}

  /** The two base classes, skipped by discovery. */
  const BaseClasses: set<string> := {"ContextBuilder", "WitGPUContextBuilder"}

  /** Type names for class names with consecutive capitals. */
  const Overrides: map<string, string> := map[
    "HMCGPUContextBuilder" := "hmc_gpu",
    "HMCCPUContextBuilder" := "hmc_cpu",
    "HMCXMLContextBuilder" := "hmc_xml",
    "MresMQContextBuilder" := "mres_mq"]

  const Suffix := "ContextBuilder"

  // ---------------------------------------------------------------------------
  // Type names

  predicate IsCapital(c: char) { 'A' <= c <= 'Z' }

  /** One character of the name after the first: a capital gets a `_`
      before it, and everything is lowered. */
  function Mark(c: char): string {
    if IsCapital(c) then ['_', Lower(c)] else [Lower(c)]
  }

  function Underscored(t: string): string
    decreases |t|
  {
    if t == [] then [] else Underscored(t[..|t| - 1]) + Mark(t[|t| - 1])
  }

  /** `re.sub(r"(?<!^)(?=[A-Z])", "_", base).lower()`: a `_` before each
      capital that is not the first character, then lower case. */
  function Snake(s: string): string {
    if s == [] then [] else [Lower(s[0])] + Underscored(s[1..])
  }

  predicate NoCapitals(s: string) {
    forall i :: 0 <= i < |s| ==> !IsCapital(s[i])
  }

  lemma {:induction false} UnderscoredNoCapitals(t: string)
    ensures NoCapitals(Underscored(t))
    decreases |t|
  {
    if t != [] {
      UnderscoredNoCapitals(t[..|t| - 1]);
    }
  }

  /** The snake case holds no capitals. */
  lemma SnakeNoCapitals(s: string)
    ensures NoCapitals(Snake(s))
  {
    if s != [] {
      UnderscoredNoCapitals(s[1..]);
    }
  }

  /** `re.sub(r"ContextBuilder$", "", name)`. */
  function StripSuffix(name: string): (r: string)
    ensures EndsWith(name, Suffix) ==> r + Suffix == name
    ensures !EndsWith(name, Suffix) ==> r == name
  {
    if EndsWith(name, Suffix) then name[..|name| - |Suffix|] else name
  }

  predicate EndsWith(s: string, suffix: string) {
    |suffix| <= |s| && s[|s| - |suffix|..] == suffix
  }

  /** `_class_to_type_name`: the override when there is one, else the
      snake case of the name without its `ContextBuilder` suffix. */
  function TypeName(name: string): string {
    if name in Overrides then Overrides[name] else Snake(StripSuffix(name))
  }

  lemma {:induction false} UnderscoredAppend(a: string, b: string)
    ensures Underscored(a + b) == Underscored(a) + Underscored(b)
    decreases |b|
  {
    if b != [] {
      var b0 := b[..|b| - 1];
      assert (a + b)[..|a + b| - 1] == a + b0;
      UnderscoredAppend(a, b0);
    } else {
      assert a + b == a;
    }
  }

  /** A text with no capitals is only lowered. */
  lemma {:induction false} UnderscoredLower(t: string)
    requires forall i :: 0 <= i < |t| ==> !IsCapital(t[i])
    ensures Underscored(t) == LowerText(t)
    decreases |t|
  {
    if t != [] {
      var init := t[..|t| - 1];
      UnderscoredLower(init);
      assert LowerText(t) == LowerText(init) + [Lower(t[|t| - 1])];
    }
  }

  /** A capitalised word: a capital followed by no capitals. */
  predicate Capitalised(w: string) {
    w != [] && IsCapital(w[0]) && forall i :: 1 <= i < |w| ==> !IsCapital(w[i])
  }

  function Concat(ws: seq<string>): string
    decreases |ws|
  {
    if ws == [] then [] else Concat(ws[..|ws| - 1]) + ws[|ws| - 1]
  }

  function LowerAll(ws: seq<string>): (r: seq<string>)
    ensures |r| == |ws| && forall i :: 0 <= i < |ws| ==> r[i] == LowerText(ws[i])
  {
    seq(|ws|, i requires 0 <= i < |ws| => LowerText(ws[i]))
  }

  lemma UnderscoredCapitalHead(w: string)
    requires w != [] && IsCapital(w[0])
    ensures Underscored(w) == ['_', Lower(w[0])] + Underscored(w[1..])
  {
    assert [w[0]] + w[1..] == w;
    UnderscoredAppend([w[0]], w[1..]);
    assert [w[0]][..0] == [];
  }

  lemma UnderscoredTail(w: string)
    requires Capitalised(w)
    ensures Underscored(w[1..]) == LowerText(w[1..])
  {
    var tail := w[1..];
    forall i | 0 <= i < |tail| ensures !IsCapital(tail[i]) {
      assert tail[i] == w[i + 1];
    }
    UnderscoredLower(tail);
  }

  lemma CapitalisedUnderscored(w: string)
    requires Capitalised(w)
    ensures Underscored(w) == "_" + LowerText(w)
  {
    UnderscoredCapitalHead(w);
    UnderscoredTail(w);
    LowerTextCons(w);
  }

  lemma LowerTextCons(w: string)
    requires w != []
    ensures LowerText(w) == [Lower(w[0])] + LowerText(w[1..])
  {
  }

  lemma {:induction false} JoinWithSnoc(parts: seq<string>, x: string, sep: string)
    requires parts != []
    ensures JoinWith(parts + [x], sep) == JoinWith(parts, sep) + sep + x
    decreases |parts|
  {
    if |parts| == 1 {
      assert (parts + [x])[1..] == [x];
    } else {
      assert (parts + [x])[1..] == parts[1..] + [x];
      JoinWithSnoc(parts[1..], x, sep);
    }
  }

  lemma SnakeOneWord(w: string)
    requires Capitalised(w)
    ensures Snake(w) == LowerText(w)
  {
    UnderscoredTail(w);
    LowerTextCons(w);
  }

  lemma SnakeAppendWord(c: string, w: string)
    requires c != [] && Capitalised(w)
    ensures Snake(c + w) == Snake(c) + "_" + LowerText(w)
  {
    assert (c + w)[0] == c[0];
    assert (c + w)[1..] == c[1..] + w;
    UnderscoredAppend(c[1..], w);
    CapitalisedUnderscored(w);
  }

  /** A name made of capitalised words becomes those words in lower case
      joined by `_`: `GluInput` gives `glu_input`. */
  lemma {:induction false} SnakeOfWords(ws: seq<string>)
    requires ws != [] && forall i :: 0 <= i < |ws| ==> Capitalised(ws[i])
    ensures Snake(Concat(ws)) == JoinWith(LowerAll(ws), "_")
    decreases |ws|
  {
    var last := ws[|ws| - 1];
    var init := ws[..|ws| - 1];
    if |ws| == 1 {
      assert ws == [last];
      assert Concat(ws) == Concat([]) + last == last;
      assert LowerAll(ws) == [LowerText(last)];
      SnakeOneWord(last);
    } else {
      SnakeOfWords(init);
      ConcatNonEmpty(init);
      SnakeAppendWord(Concat(init), last);
      assert LowerAll(ws) == LowerAll(init) + [LowerText(last)];
      JoinWithSnoc(LowerAll(init), LowerText(last), "_");
    }
  }

  lemma {:induction false} ConcatNonEmpty(ws: seq<string>)
    requires ws != [] && forall i :: 0 <= i < |ws| ==> ws[i] != []
    ensures Concat(ws) != []
    decreases |ws|
  {
  }

  lemma StripSuffixOf(base: string)
    ensures StripSuffix(base + Suffix) == base
  {
    var name := base + Suffix;
    assert name[|name| - |Suffix|..] == Suffix;
    assert name[..|name| - |Suffix|] == base;
  }

  lemma TypeNameNotOverridden(name: string)
    requires name !in Overrides
    ensures TypeName(name) == Snake(StripSuffix(name))
  {
  }

  lemma SnakeOfStrippedWords(ws: seq<string>)
    requires ws != [] && forall i :: 0 <= i < |ws| ==> Capitalised(ws[i])
    ensures Snake(StripSuffix(Concat(ws) + Suffix)) == JoinWith(LowerAll(ws), "_")
  {
    StripSuffixOf(Concat(ws));
    SnakeOfWords(ws);
  }

  /** A class name base made of capitalised words. */
  predicate CapitalisedWords(ws: seq<string>) {
    ws != [] && forall i :: 0 <= i < |ws| ==> Capitalised(ws[i])
  }

  /** The type name of a builder class without an override: `GluInput`
      followed by `ContextBuilder` gives `glu_input`. */
  lemma TypeNameOfWords(ws: seq<string>, name: string)
    requires CapitalisedWords(ws)
    requires name == Concat(ws) + Suffix && name !in Overrides
    ensures TypeName(name) == JoinWith(LowerAll(ws), "_")
  {
    TypeNameNotOverridden(name);
    SnakeOfStrippedWords(ws);
  }

  // ---------------------------------------------------------------------------
  // Discovery

  /** A class discovery files: a builder that is not one of the bases. */
  predicate Eligible(c: BuilderClass) {
    c.isBuilder && c.name !in BaseClasses
  }

  /** `if job_schema:`: a non-empty job schema makes a job builder. */
  predicate IsJobBuilder(c: BuilderClass) {
    c.jobSchema.Some? && c.jobSchema.value != []
  }

  predicate Scanned(m: JobModule) {
    !m.isPackage && m.name !in SkipModules
  }

  datatype Maps = Maps(jobs: map<string, BuilderClass>, inputs: map<string, BuilderClass>)

  function AddClass(maps: Maps, c: BuilderClass): Maps {
    if !Eligible(c) then maps
    else if IsJobBuilder(c) then maps.(jobs := maps.jobs[TypeName(c.name) := c])
    else maps.(inputs := maps.inputs[TypeName(c.name) := c])
  }

  function AddClasses(maps: Maps, cs: seq<BuilderClass>): Maps
    decreases |cs|
  {
    if cs == [] then maps else AddClass(AddClasses(maps, cs[..|cs| - 1]), cs[|cs| - 1])
  }

  function AddModules(maps: Maps, ms: seq<JobModule>): Maps
    decreases |ms|
  {
    if ms == [] then maps
    else
      var prev := AddModules(maps, ms[..|ms| - 1]);
      var m := ms[|ms| - 1];
      if Scanned(m) then AddClasses(prev, m.classes) else prev
  }

  /** `_discover_builders`, proved against `AddModules`. */
  method Discover(ms: seq<JobModule>) returns (jobs: map<string, BuilderClass>, inputs: map<string, BuilderClass>)
    ensures Maps(jobs, inputs) == AddModules(Maps(map[], map[]), ms)
  {
    jobs, inputs := map[], map[];
    var i := 0;
    while i < |ms|
      invariant 0 <= i <= |ms|
      invariant Maps(jobs, inputs) == AddModules(Maps(map[], map[]), ms[..i])
    {
      assert ms[..i + 1][..i] == ms[..i];
      var m := ms[i];
      if Scanned(m) {
        ghost var before := Maps(jobs, inputs);
        var j := 0;
        while j < |m.classes|
          invariant 0 <= j <= |m.classes|
          invariant Maps(jobs, inputs) == AddClasses(before, m.classes[..j])
        {
          assert m.classes[..j + 1][..j] == m.classes[..j];
          var c := m.classes[j];
          if Eligible(c) {
            if IsJobBuilder(c) {
              jobs := jobs[TypeName(c.name) := c];
            } else {
              inputs := inputs[TypeName(c.name) := c];
            }
          }
          j := j + 1;
        }
        assert m.classes[..j] == m.classes;
      }
      i := i + 1;
    }
    assert ms[..i] == ms;
  }

  /** Everything filed is an eligible class under its own type name, job
      builders exactly in the job map. */
  predicate Sound(maps: Maps) {
    (forall k :: k in maps.jobs ==> Eligible(maps.jobs[k]) && IsJobBuilder(maps.jobs[k]) && TypeName(maps.jobs[k].name) == k)
    && (forall k :: k in maps.inputs ==> Eligible(maps.inputs[k]) && !IsJobBuilder(maps.inputs[k]) && TypeName(maps.inputs[k].name) == k)
  }

  lemma {:induction false} AddClassesSound(maps: Maps, cs: seq<BuilderClass>)
    requires Sound(maps)
    ensures Sound(AddClasses(maps, cs))
    decreases |cs|
  {
    if cs != [] {
      AddClassesSound(maps, cs[..|cs| - 1]);
    }
  }

  /** Discovery files only eligible classes (never a base, never a
      non-builder), a job builder exactly when its job schema is not
      empty, each under its own type name. */
  lemma {:induction false} DiscoveredSound(ms: seq<JobModule>)
    ensures Sound(AddModules(Maps(map[], map[]), ms))
    decreases |ms|
  {
    if ms != [] {
      DiscoveredSound(ms[..|ms| - 1]);
      var m := ms[|ms| - 1];
      if Scanned(m) {
        AddClassesSound(AddModules(Maps(map[], map[]), ms[..|ms| - 1]), m.classes);
      }
    }
  }

  /** Adding classes never removes a type name. */
  lemma {:induction false} AddClassesGrows(maps: Maps, cs: seq<BuilderClass>)
    ensures maps.jobs.Keys <= AddClasses(maps, cs).jobs.Keys
    ensures maps.inputs.Keys <= AddClasses(maps, cs).inputs.Keys
    decreases |cs|
  {
    if cs != [] {
      AddClassesGrows(maps, cs[..|cs| - 1]);
    }
  }

  lemma {:induction false} AddModulesGrows(maps: Maps, ms: seq<JobModule>)
    ensures maps.jobs.Keys <= AddModules(maps, ms).jobs.Keys
    ensures maps.inputs.Keys <= AddModules(maps, ms).inputs.Keys
    decreases |ms|
  {
    if ms != [] {
      AddModulesGrows(maps, ms[..|ms| - 1]);
      var m := ms[|ms| - 1];
      if Scanned(m) {
        AddClassesGrows(AddModules(maps, ms[..|ms| - 1]), m.classes);
      }
    }
  }

  /** An eligible class is filed under its type name in its map. */
  lemma {:induction false} AddClassesFiles(maps: Maps, cs: seq<BuilderClass>, i: nat)
    requires i < |cs| && Eligible(cs[i])
    ensures IsJobBuilder(cs[i]) ==> TypeName(cs[i].name) in AddClasses(maps, cs).jobs
    ensures !IsJobBuilder(cs[i]) ==> TypeName(cs[i].name) in AddClasses(maps, cs).inputs
    decreases |cs|
  {
    var init := cs[..|cs| - 1];
    if i < |cs| - 1 {
      assert init[i] == cs[i];
      AddClassesFiles(maps, init, i);
    }
  }

  /** Every eligible class of a scanned module is filed, under its type
      name, in the map its job schema selects. */
  lemma {:induction false} DiscoveredComplete(ms: seq<JobModule>, i: nat, j: nat)
    requires i < |ms| && Scanned(ms[i]) && j < |ms[i].classes| && Eligible(ms[i].classes[j])
    ensures var c, maps := ms[i].classes[j], AddModules(Maps(map[], map[]), ms);
            (IsJobBuilder(c) ==> TypeName(c.name) in maps.jobs)
            && (!IsJobBuilder(c) ==> TypeName(c.name) in maps.inputs)
    decreases |ms|
  {
    var init := ms[..|ms| - 1];
    var prev := AddModules(Maps(map[], map[]), init);
    var m := ms[|ms| - 1];
    if i < |ms| - 1 {
      assert init[i] == ms[i];
      DiscoveredComplete(init, i, j);
      if Scanned(m) {
        AddClassesGrows(prev, m.classes);
      }
    } else {
      AddClassesFiles(prev, m.classes, j);
    }
  }

  // ---------------------------------------------------------------------------
  // Lookups

  /** `get_job_builder`: the job builder of the type, else `KeyError`. */
  function GetJobBuilder(maps: Maps, jobType: string): (r: Result<BuilderClass>)
    ensures r.Ok? <==> jobType in maps.jobs
  {
    if jobType in maps.jobs then Ok(maps.jobs[jobType]) else Err("Unknown job_type '" + jobType + "'")
  }

  /** `get_input_builder`: the input builder of the type, else `KeyError`. */
  function GetInputBuilder(maps: Maps, inputType: string): (r: Result<BuilderClass>)
    ensures r.Ok? <==> inputType in maps.inputs
  {
    if inputType in maps.inputs then Ok(maps.inputs[inputType]) else Err("Unknown input_type '" + inputType + "'")
  }

  /** `get_job_schema`: both deduplicated schemas of the job builder, else
      `(None, None)`. */
  function GetJobSchema(maps: Maps, jobType: string): (r: (Option<seq<Schema.Param>>, Option<seq<Schema.Param>>))
    ensures r.0.Some? <==> jobType in maps.jobs
    ensures r.1.Some? <==> jobType in maps.jobs
  {
    if jobType !in maps.jobs then (None, None)
    else
      var c := maps.jobs[jobType];
      (Some(Schema.DedupSchema(c.jobSchema)), Some(Schema.DedupSchema(c.inputSchema)))
  }

  /** `get_input_schema`: the deduplicated input schema, else `None`. */
  function GetInputSchema(maps: Maps, inputType: string): (r: Option<seq<Schema.Param>>)
    ensures r.Some? <==> inputType in maps.inputs
  {
    if inputType !in maps.inputs then None else Some(Schema.DedupSchema(maps.inputs[inputType].inputSchema))
  }

  /** On discovered maps, a job builder found by type name declares job
      parameters and carries that type name, its schemas come back with
      distinct names, and an unknown type fails both lookups together. */
  lemma LookupMeaning(ms: seq<JobModule>, jobType: string)
    ensures var maps := AddModules(Maps(map[], map[]), ms);
            var b, s := GetJobBuilder(maps, jobType), GetJobSchema(maps, jobType);
            (b.Ok? <==> s.0.Some?)
            && (b.Ok? ==> IsJobBuilder(b.value) && TypeName(b.value.name) == jobType
                          && Schema.DistinctNames(s.0.value) && Schema.DistinctNames(s.1.value))
  {
    var maps := AddModules(Maps(map[], map[]), ms);
    DiscoveredSound(ms);
    if jobType in maps.jobs {
      Schema.DedupSchemaDistinct(maps.jobs[jobType].jobSchema);
      Schema.DedupSchemaDistinct(maps.jobs[jobType].inputSchema);
    }
  }
}
