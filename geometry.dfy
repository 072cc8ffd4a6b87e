/** The process-grid checks shared by the job builders (`jobs/utils.py`):
    parsing an `ogeom` string, deriving the local lattice `lgeom` from it, and
    the two required-key checks. */
module Geometry {
  import opened Wrappers
  import opened Text
  import opened PyDict
  import opened Nested

  // ---------------------------------------------------------------------------
  // ogeom

  /** `int(part.strip())`. */
  function ParseWord(part: string): Option<int> {
    ParseInt(Strip(part))
  }

  /** The values of `xs` when none of them is `None`. */
  function AllSome(xs: seq<Option<int>>): (r: Option<seq<int>>)
    ensures r.None? <==> exists i :: 0 <= i < |xs| && xs[i].None?
    ensures r.Some? ==> |r.value| == |xs| && forall i :: 0 <= i < |xs| ==> xs[i] == Some(r.value[i])
  {
    if xs == [] then Some([])
    else if xs[0].None? then None
    else
      match AllSome(xs[1..])
      case None => None
      case Some(rest) => Some([xs[0].value] + rest)
  }

  /** `[int(part.strip()) for part in parts]`; `None` stands for the
      ValueError of the first part that is not an integer literal. */
  function ParseInts(parts: seq<string>): (r: Option<seq<int>>)
    ensures r.None? <==> exists i :: 0 <= i < |parts| && ParseWord(parts[i]).None?
    ensures r.Some? ==> |r.value| == |parts| && forall i :: 0 <= i < |parts| ==> ParseWord(parts[i]) == Some(r.value[i])
  {
    AllSome(Words(parts))
  }

  function Words(parts: seq<string>): (ws: seq<Option<int>>)
    ensures |ws| == |parts| && forall i :: 0 <= i < |parts| ==> ws[i] == ParseWord(parts[i])
  {
    seq(|parts|, i requires 0 <= i < |parts| => ParseWord(parts[i]))
  }

  predicate AllPositive(xs: seq<int>) {
    forall i :: 0 <= i < |xs| ==> xs[i] > 0
  }

  /** `parse_ogeom`: a comma-separated list of exactly four positive integers. */
  function ParseOgeom(value: string): (r: Result<seq<int>>)
    ensures r.Ok? ==> |r.value| == 4 && AllPositive(r.value)
    ensures r.Ok? ==> ParseInts(Split(value, ',')) == Some(r.value)
    ensures r.Ok? <==> ParseInts(Split(value, ',')).Some?
                       && |Split(value, ',')| == 4
                       && AllPositive(ParseInts(Split(value, ',')).value)
  {
    match ParseInts(Split(value, ','))
    case None => Err("ValidationError: Invalid ogeom '" + value + "'")
    case Some(parts) =>
      if |parts| != 4 then
        Err("ValidationError: ogeom must have 4 components, got " + IntToString(|parts|) + ": " + value)
      else if exists i :: 0 <= i < |parts| && parts[i] <= 0 then
        Err("ValidationError: ogeom components must be positive: " + value)
      else Ok(parts)
  }

  /** The decimal numerals of `xs`. */
  function Numerals(xs: seq<int>): (r: seq<string>)
    ensures |r| == |xs| && forall i :: 0 <= i < |xs| ==> r[i] == IntToString(xs[i])
  {
    seq(|xs|, i requires 0 <= i < |xs| => IntToString(xs[i]))
  }

  lemma NumeralHasNo(n: int, c: char)
    requires c != '-' && !IsDigit(c)
    ensures c !in IntToString(n)
  {
    var s := IntToString(n);
    if n >= 0 {
      assert AllDigits(s);
    } else {
      assert AllDigits(s[1..]);
      assert forall i :: 1 <= i < |s| ==> s[i] == s[1..][i - 1];
    }
  }

  lemma ParseIntsNumerals(xs: seq<int>)
    ensures ParseInts(Numerals(xs)) == Some(xs)
  {
    var ns := Numerals(xs);
    forall i | 0 <= i < |xs| ensures ParseWord(ns[i]) == Some(xs[i]) {
      StripNoSpace(ns[i]);
      ParseIntToString(xs[i]);
    }
    var r := ParseInts(ns);
    assert r.Some?;
    assert r.value == xs;
  }

  /** Writing four positive integers with commas and parsing them gives them
      back. */
  lemma ParseOgeomRoundTrip(ogeom: seq<int>)
    requires |ogeom| == 4 && AllPositive(ogeom)
    ensures ParseOgeom(Join(Numerals(ogeom), ',')) == Ok(ogeom)
  {
    var ns := Numerals(ogeom);
    forall k | 0 <= k < |ns| ensures ',' !in ns[k] {
      NumeralHasNo(ogeom[k], ',');
    }
    SplitJoin(ns, ',');
    ParseIntsNumerals(ogeom);
  }

  // ---------------------------------------------------------------------------
  // lgeom

  /** Python's `a // b`, which rounds toward minus infinity. */
  function FloorDiv(a: int, b: int): int
    requires b != 0
  {
    if b > 0 then a / b else (-a) / (-b)
  }

  /** The lattice extent along dimension `i`: `L` for the three spatial
      directions, `T` for time. */
  function Extent(L: int, T: int, i: nat): int {
    if i < 3 then L else T
  }

  /** `validate_geometry`: `lgeom[i] = extent / ogeom[i]`, rejected when a
      component is zero, does not divide its extent or leaves an odd local
      extent. */
  function ValidateGeometry(L: int, T: int, ogeom: seq<int>): (r: Result<seq<int>>)
    ensures r.Ok? ==> |ogeom| == 4 && |r.value| == 4
    ensures r.Ok? ==> forall i :: 0 <= i < 4 ==> r.value[i] * ogeom[i] == Extent(L, T, i) && r.value[i] % 2 == 0
  {
    if |ogeom| != 4 then
      Err("ValidationError: ogeom must have 4 components, got " + IntToString(|ogeom|))
    else if exists i :: 0 <= i < 4 && ogeom[i] == 0 then
      Err("ValidationError: Invalid ogeom for lattice")
    else
      var lgeom := seq(4, i requires 0 <= i < 4 => FloorDiv(Extent(L, T, i), ogeom[i]));
      if exists i :: 0 <= i < 4 && lgeom[i] * ogeom[i] != Extent(L, T, i) then
        Err("ValidationError: ogeom does not evenly tile lattice")
      else if exists i :: 0 <= i < 4 && lgeom[i] % 2 != 0 then
        Err("ValidationError: lgeom values must be even")
      else Ok(lgeom)
  }

  /** For a positive divisor, floor division is exact exactly when the
      remainder is zero. */
  lemma FloorDivExact(a: int, b: int)
    requires b > 0
    ensures FloorDiv(a, b) * b == a <==> a % b == 0
  {
    assert a == b * (a / b) + a % b;
  }

  /** The positive `ogeom` values accepted, stated with exact division: each
      component divides its extent into an even number of sites. */
  lemma ValidateGeometryExact(L: int, T: int, ogeom: seq<int>)
    requires |ogeom| == 4 && AllPositive(ogeom)
    ensures ValidateGeometry(L, T, ogeom).Ok? <==>
            forall i :: 0 <= i < 4 ==> Extent(L, T, i) % ogeom[i] == 0 && (Extent(L, T, i) / ogeom[i]) % 2 == 0
    ensures ValidateGeometry(L, T, ogeom).Ok? ==>
            forall i :: 0 <= i < 4 ==> ValidateGeometry(L, T, ogeom).value[i] == Extent(L, T, i) / ogeom[i]
  {
    forall i | 0 <= i < 4
      ensures FloorDiv(Extent(L, T, i), ogeom[i]) * ogeom[i] == Extent(L, T, i) <==> Extent(L, T, i) % ogeom[i] == 0
    {
      FloorDivExact(Extent(L, T, i), ogeom[i]);
    }
  }

  function Product(xs: seq<int>): int {
    if xs == [] then 1 else xs[0] * Product(xs[1..])
  }

  /** An accepted grid tiles the whole lattice: the local volume times the
      number of ranks is the global volume. */
  lemma ValidateGeometryVolume(L: int, T: int, ogeom: seq<int>)
    requires ValidateGeometry(L, T, ogeom).Ok?
    ensures Product(ValidateGeometry(L, T, ogeom).value) * Product(ogeom) == L * L * L * T
  {
    var lg := ValidateGeometry(L, T, ogeom).value;
    assert lg[0] * ogeom[0] == L && lg[1] * ogeom[1] == L && lg[2] * ogeom[2] == L && lg[3] * ogeom[3] == T
      by { assert Extent(L, T, 0) == L && Extent(L, T, 3) == T; }
    ProductFour(lg);
    ProductFour(ogeom);
    ProductPairs(lg[0], lg[1], lg[2], lg[3], ogeom[0], ogeom[1], ogeom[2], ogeom[3]);
  }

  lemma ProductFour(xs: seq<int>)
    requires |xs| == 4
    ensures Product(xs) == xs[0] * xs[1] * xs[2] * xs[3]
  {
    var t := xs[3..];
    assert t[1..] == [] && t[0] == xs[3];
    assert Product(t) == xs[3];
    assert xs[2..][1..] == t;
    assert Product(xs[2..]) == xs[2] * xs[3];
    assert xs[1..][1..] == xs[2..];
    assert Product(xs[1..]) == xs[1] * (xs[2] * xs[3]);
  }

  lemma ProductPairs(a: int, b: int, c: int, d: int, p: int, q: int, r: int, s: int)
    ensures (a * b * c * d) * (p * q * r * s) == (a * p) * (b * q) * (c * r) * (d * s)
  {
  }

  // ---------------------------------------------------------------------------
  // required keys

  /** The keys of `keys` that `present` lacks, in order. */
  function MissingKeys(keys: seq<string>, present: set<string>): (r: seq<string>)
    ensures forall k :: k in r <==> k in keys && k !in present
  {
    if keys == [] then []
    else if keys[0] in present then MissingKeys(keys[1..], present)
    else [keys[0]] + MissingKeys(keys[1..], present)
  }

  /** `ensure_keys`: the error names every missing key. */
  function EnsureKeys(mapping: set<string>, keys: seq<string>): (r: Result<()>)
    ensures r.Ok? <==> forall k :: k in keys ==> k in mapping
  {
    var missing := MissingKeys(keys, mapping);
    if missing != [] then
      assert missing[0] in missing;
      Err("ValidationError: Missing required parameters: " + JoinWith(missing, ", "))
    else
      assert forall k :: k in keys ==> k in mapping;
      Ok(())
  }

  /** `params.get(key) in (None, "")`: absent, None or the empty string. */
  predicate Blank(params: Dict<Val>, key: string) {
    key !in params.m || params.m[key] == NoneVal || params.m[key] == Str("")
  }

  /** The bullet as it stands in the source file: the UTF-8 bytes of U+2022
      read back as three Latin-1/CP-1252 characters. */
  const Bullet: string := "\U{E2}\U{20AC}\U{A2}"

  /** The keys of `ks` that are blank in `params`, in order. */
  function BlankKeys(params: Dict<Val>, ks: seq<string>): (r: seq<string>)
    ensures forall k :: k in r <==> k in ks && Blank(params, k)
  {
    if ks == [] then []
    else if Blank(params, ks[0]) then [ks[0]] + BlankKeys(params, ks[1..])
    else BlankKeys(params, ks[1..])
  }

  function MissingLines(missing: seq<string>, req: Dict<string>): string
    requires forall k :: k in missing ==> k in req.m
  {
    if missing == [] then ""
    else "  " + Bullet + " " + missing[0] + ": " + req.m[missing[0]] + "\n" + MissingLines(missing[1..], req)
  }

  function Examples(missing: seq<string>): seq<string> {
    seq(|missing|, i requires 0 <= i < |missing| => missing[i] + "=<value>")
  }

  /** `require_all`: every required key must be present and non-empty; the
      result holds exactly the required keys, in the requirements' order. The
      error lists every missing key with its description and an example flag. */
  function RequireAll(params: Dict<Val>, req: Dict<string>, paramType: string): (r: Result<Dict<Val>>)
    requires req.Valid()
    ensures r.Ok? <==> forall k :: k in req.m ==> !Blank(params, k)
    ensures r.Ok? ==> r.value.Valid() && r.value.keys == req.keys && r.value.m.Keys == req.m.Keys
    ensures r.Ok? ==> forall k :: k in req.m ==> k in params.m && r.value.m[k] == params.m[k]
  {
    var missing := BlankKeys(params, req.keys);
    if missing != [] then
      assert missing[0] in missing;
      var flag := if paramType == "input" then "-i" else "-j";
      Err("ValidationError: \nMissing required " + paramType + " parameters (pass with " + flag + "):\n"
          + MissingLines(missing, req) + "\nExample: " + flag + " \"" + JoinWith(Examples(missing), " ") + "\"")
    else
      assert forall k :: k in req.m ==> !Blank(params, k) by {
        forall k | k in req.m ensures !Blank(params, k) {
          assert k in req.keys;
        }
      }
      Ok(Dict(req.keys, map k | k in req.m :: params.m[k]))
  }
}
