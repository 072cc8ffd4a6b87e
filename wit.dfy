/** The WIT `.ini` input (`DWF.in`): the default parameter table, the
    recursive merge of user changes into it, and the rendering of one
    `[section]` header per section followed by `key value` lines. */
module Wit {
  import opened Wrappers
  import opened Text
  import opened PyDict
  import opened Nested

  function Section(items: seq<(string, string)>): (v: Val)
    ensures Good(v)
  {
    Map(StrDict(items))
  }

  /** A dict of sections, each a dict of strings, built in order. */
  function Sections(items: seq<(string, seq<(string, string)>)>): (d: Dict<Val>)
    ensures GoodDict(d)
  {
    if items == [] then Empty()
    else
      var last := items[|items| - 1];
      Set(Sections(items[..|items| - 1]), last.0, Section(last.1))
  }

  /** `DEFAULT_WIT_PARAMS`. */
  function DefaultWitParams(): (d: Dict<Val>)
    ensures GoodDict(d)
  {
    Sections([
      ("Run name", [("name", "u_stout8")]),
      ("Directories", [("cnfg_dir", "../cfgs_stout/")]),
      ("Configurations", [("first", "444"), ("last", "444"), ("step", "4")]),
      ("Random number generator", [("level", "0"), ("seed", "3993")]),
      ("Lattice parameters", [("Ls", "10"), ("M5", "1.0"), ("b", "1.75"), ("c", "0.75")]),
      ("Boundary conditions", [("type", "APeri")]),
      ("Witness", [("no_prop", "3"), ("no_solver", "2")]),
      ("Solver 0", [("solver", "CG"), ("nkv", "24"), ("isolv", "1"), ("nmr", "3"),
                    ("ncy", "3"), ("nmx", "8000"), ("exact_deflation", "true")]),
      ("Solver 1", [("solver", "CG"), ("nkv", "24"), ("isolv", "1"), ("nmr", "3"),
                    ("ncy", "3"), ("nmx", "8000"), ("exact_deflation", "false")]),
      ("Exact Deflation", [("Cheby_fine", "0.01,-1,24"), ("Cheby_smooth", "0,0,0"),
                           ("Cheby_coarse", "0,0,0"), ("kappa", "0.125"), ("res", "1E-5"),
                           ("rmx", "1E-5"), ("nmx", "64"), ("ns", "64")]),
      ("AMA", [("NEXACT", "1"), ("SLOPPY_PREC", "1E-5"), ("NHITS", "1"), ("NT", "32")])
    ])
  }

  /** The parameters written to the file: a fresh copy of the defaults with
      the user's changes merged in (only when there are any). */
  function WitParams(custom: Dict<Val>): (d: Dict<Val>)
    requires GoodDict(custom)
    ensures GoodDict(d)
  {
    if custom.keys == [] then DefaultWitParams() else UpdateNested(DefaultWitParams(), custom)
  }

  /** `f"{s:<12}"`: left-justified in a field of width `w`. */
  function PadRight(s: string, w: nat): (r: string)
    ensures |r| == if |s| >= w then |s| else w
    ensures r[..|s|] == s
    ensures forall i :: |s| <= i < |r| ==> r[i] == ' '
  {
    if |s| >= w then s else s + seq(w - |s|, _ => ' ')
  }

  /** `f"{key:<12} {val}"`. */
  function EntryLine(key: string, v: Val): string {
    PadRight(key, 12) + " " + Show(v)
  }

  function BlockLines(d: Dict<Val>): (lines: seq<string>)
    requires d.Valid()
    ensures |lines| == |d.keys|
  {
    seq(|d.keys|, i requires 0 <= i < |d.keys| => EntryLine(d.keys[i], d.m[d.keys[i]]))
  }

  /** The lines for section `k` appended to what was written before; a
      section whose value is not a dict makes `block.items()` raise. */
  function RenderStep(params: Dict<Val>, before: Result<seq<string>>, k: string): Result<seq<string>>
    requires GoodDict(params) && k in params.m
  {
    var block := params.m[k];
    if before.Err? then before
    else if !block.Map? then Err("AttributeError: section " + k + " is not a dict")
    else
      GoodChild(params, k);
      Ok(before.value + ["[" + k + "]"] + BlockLines(block.d) + [""])
  }

  /** The lines written for the sections `ks` of `params`, in order: they
      are written exactly when every one of those sections is a dict, and
      then each section has its `[section]` header line. */
  function RenderSections(params: Dict<Val>, ks: seq<string>): (r: Result<seq<string>>)
    requires GoodDict(params) && forall k :: k in ks ==> k in params.m
    ensures r.Ok? <==> forall k :: k in ks ==> params.m[k].Map?
    ensures r.Ok? ==> forall k :: k in ks ==> "[" + k + "]" in r.value
  {
    if ks == [] then Ok([])
    else RenderStep(params, RenderSections(params, ks[..|ks| - 1]), ks[|ks| - 1])
  }

  /** The lines of the WIT input file: written exactly when every section is
      a dict, with a `[section]` header line for each. */
  function RenderWit(params: Dict<Val>): (r: Result<seq<string>>)
    requires GoodDict(params)
    ensures r.Ok? <==> forall k :: k in params.m ==> params.m[k].Map?
    ensures r.Ok? ==> forall k :: k in params.m ==> "[" + k + "]" in r.value
  {
    RenderSections(params, params.keys)
  }

  lemma RenderSectionsNext(params: Dict<Val>, i: nat)
    requires GoodDict(params) && i < |params.keys|
    ensures RenderSections(params, params.keys[..i + 1]) ==
            RenderStep(params, RenderSections(params, params.keys[..i]), params.keys[i])
  {
    assert params.keys[..i + 1][..i] == params.keys[..i];
  }

  /** The entry lines of one block, written one at a time. */
  method WriteBlock(lines: seq<string>, block: Dict<Val>) returns (out: seq<string>)
    requires block.Valid()
    ensures out == lines + BlockLines(block)
  {
    out := lines;
    var j := 0;
    while j < |block.keys|
      invariant 0 <= j <= |block.keys|
      invariant out == lines + BlockLines(block)[..j]
    {
      var key := block.keys[j];
      out := out + [EntryLine(key, block.m[key])];
      assert BlockLines(block)[..j + 1] == BlockLines(block)[..j] + [EntryLine(key, block.m[key])];
      j := j + 1;
    }
    assert BlockLines(block)[..j] == BlockLines(block);
  }

  /** Once a section fails to render, the whole rendering fails with that error. */
  lemma {:induction false} RenderErrSticks(params: Dict<Val>, i: nat)
    requires GoodDict(params) && i <= |params.keys|
    requires RenderSections(params, params.keys[..i]).Err?
    ensures RenderWit(params) == RenderSections(params, params.keys[..i])
    decreases |params.keys| - i
  {
    if i == |params.keys| {
      assert params.keys[..i] == params.keys;
    } else {
      RenderSectionsNext(params, i);
      RenderErrSticks(params, i + 1);
    }
  }

  /** The rendering loop of `generate_wit_input`: one `[section]` header, the
      entry lines and a blank line per section, stopping at the first section
      that is not a dict. */
  method WriteSections(params: Dict<Val>) returns (r: Result<seq<string>>)
    requires GoodDict(params)
    ensures r == RenderWit(params)
  {
    var lines: seq<string> := [];
    var i := 0;
    while i < |params.keys|
      invariant 0 <= i <= |params.keys|
      invariant RenderSections(params, params.keys[..i]) == Ok(lines)
    {
      var section := params.keys[i];
      var block := params.m[section];
      RenderSectionsNext(params, i);
      if !block.Map? {
        RenderErrSticks(params, i + 1);
        return Err("AttributeError: section " + section + " is not a dict");
      }
      GoodChild(params, section);
      lines := WriteBlock(lines + ["[" + section + "]"], block.d);
      lines := lines + [""];
      i := i + 1;
    }
    assert params.keys[..i] == params.keys;
    return Ok(lines);
  }

  /** `generate_wit_input`: merge the user's changes into a copy of the
      defaults, then write the sections. The result is the list of lines of
      the file (each followed by a newline in the file), or the error the
      rendering raises. */
  method GenerateWitInput(custom: Dict<Val>) returns (r: Result<seq<string>>)
    requires GoodDict(custom)
    ensures r == RenderWit(WitParams(custom))
  {
    var params := WitParams(custom);
    r := WriteSections(params);
  }

  /** Reading an entry line back: the first word is the key and the rest,
      stripped, is the value text. */
  function ParseEntryLine(line: string): (string, string) {
    var n := WordLen(line);
    (line[..n], Strip(line[n..]))
  }

  /** An entry line gives back its key and value text when the key is one
      word and the value text has no surrounding whitespace. */
  lemma EntryLineRoundTrip(key: string, v: Val)
    requires key != [] && NoSpace(key)
    requires Strip(Show(v)) == Show(v)
    ensures ParseEntryLine(EntryLine(key, v)) == (key, Show(v))
  {
    var line := EntryLine(key, v);
    var pad := PadRight(key, 12);
    assert line == pad + " " + Show(v);
    assert line[..|key|] == key;
    WordLenOf(line, |key|);
    var tail := line[|key|..];
    assert tail == pad[|key|..] + " " + Show(v);
    SpacesThenText(pad[|key|..] + " ", Show(v));
  }

  lemma SpacesThenText(spaces: string, t: string)
    requires forall i :: 0 <= i < |spaces| ==> spaces[i] == ' '
    requires Strip(t) == t
    ensures Strip(spaces + t) == t
  {
    LStripSpaces(spaces, t);
    assert t == [] || !IsSpace(t[0]);
    assert LStrip(t) == t;
  }

  lemma {:induction false} LStripSpaces(spaces: string, t: string)
    requires forall i :: 0 <= i < |spaces| ==> spaces[i] == ' '
    ensures LStrip(spaces + t) == LStrip(t)
  {
    if spaces != [] {
      LStripSpaceStep(spaces, t);
      LStripSpaces(spaces[1..], t);
    } else {
      assert spaces + t == t;
    }
  }

  lemma LStripSpaceStep(spaces: string, t: string)
    requires spaces != [] && spaces[0] == ' '
    ensures LStrip(spaces + t) == LStrip(spaces[1..] + t)
  {
    assert (spaces + t)[1..] == spaces[1..] + t;
    assert (spaces + t)[0] == ' ';
  }
}
