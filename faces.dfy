// Decoding of the rest of an `f ` line into a triangle, as the population
// pass does it: a strstr test for "//", then sscanf probes whose results pick
// the encoding, with nine int locals that keep their values across lines.
module Faces {
  import opened Scan

  /** A triangle: three 1-based vertex references and three 1-based normal references. */
  datatype Triangle = Triangle(vIndices: seq<int>, nIndices: seq<int>)

  /** What a face line writes into its triangle slot. */
  datatype TriangleStore =
    | Full(vIndices: seq<int>, nIndices: seq<int>)  // both index triples
    | VerticesOnly(vIndices: seq<int>)              // vertex indices; the normal indices keep their old value

  function Apply(t: Triangle, store: TriangleStore): (r: Triangle)
    ensures r.vIndices == store.vIndices
    ensures r.nIndices == if store.Full? then store.nIndices else t.nIndices
  {
    match store
    case Full(v, n) => Triangle(v, n)
    case VerticesOnly(v) => t.(vIndices := v)
  }

  /** The nine int locals v0, t0, n0, v1, t1, n1, v2, t2, n2 that sscanf writes. */
  datatype Var = V0 | T0 | N0 | V1 | T1 | N1 | V2 | T2 | N2

  datatype ScanVars = ScanVars(v0: int, t0: int, n0: int, v1: int, t1: int, n1: int, v2: int, t2: int, n2: int)
  {
    function Get(x: Var): int {
      match x
      case V0 => v0 case T0 => t0 case N0 => n0
      case V1 => v1 case T1 => t1 case N1 => n1
      case V2 => v2 case T2 => t2 case N2 => n2
    }

    function Set(x: Var, value: int): (r: ScanVars)
      ensures r.Get(x) == value
      ensures forall y :: y != x ==> r.Get(y) == Get(y)
    {
      match x
      case V0 => this.(v0 := value) case T0 => this.(t0 := value) case N0 => this.(n0 := value)
      case V1 => this.(v1 := value) case T1 => this.(t1 := value) case N1 => this.(n1 := value)
      case V2 => this.(v2 := value) case T2 => this.(t2 := value) case N2 => this.(n2 := value)
    }

    /** The vertex references of a triangle: v0, v1, v2. */
    function Corners(): seq<int> {
      [v0, v1, v2]
    }

    /** The normal references of a triangle: n0, n1, n2. */
    function NormalRefs(): seq<int> {
      [n0, n1, n2]
    }
  }

  predicate Distinct(targets: seq<Var>) {
    forall i, j :: 0 <= i < j < |targets| ==> targets[i] != targets[j]
  }

  /**
   * sscanf's stores: the i-th converted value goes to the i-th variable
   * argument; arguments past the last converted value keep what they held.
   */
  function Assign(vars: ScanVars, targets: seq<Var>, vals: seq<int>): (r: ScanVars)
    requires |vals| <= |targets| && Distinct(targets)
    ensures forall i :: 0 <= i < |vals| ==> r.Get(targets[i]) == vals[i]
    ensures forall x :: x !in targets[..|vals|] ==> r.Get(x) == vars.Get(x)
    decreases |vals|
  {
    if vals == [] then vars
    else
      var r := Assign(vars.Set(targets[0], vals[0]), targets[1..], vals[1..]);
      assert forall x :: x !in targets[..|vals|] ==> x != targets[0] && x !in targets[1..][..|vals| - 1];
      r
  }

  /** One sscanf call: the locals after it and the int it returns. */
  datatype Scanned = Scanned(vars: ScanVars, returned: int)

  function ScanInto(vars: ScanVars, fmt: seq<Directive>, targets: seq<Var>, buf: seq<char>): Scanned
    requires Conversions(fmt) <= |targets| && Distinct(targets)
  {
    var o := Sscanf(fmt, buf);
    Scanned(Assign(vars, targets, o.values), Returned(o))
  }

  // The format strings of the population pass, and the locals each one writes.

  /** A face format: one corner format three times, separated by white space. */
  function ThreeOf(corner: seq<Directive>): seq<Directive> {
    corner + ([Space] + corner) + ([Space] + corner)
  }

  /** A face format as its first corner followed by the other two. */
  lemma ThreeOfGrouped(corner: seq<Directive>)
    requires corner != []
    ensures ThreeOf(corner) == corner + (([Space] + corner) + ([Space] + corner))
    ensures ThreeOf(corner)[0] == corner[0]
  {
  }

  /** "%d//%d", one corner of a v//n face */
  const VnCorner: seq<Directive> := [Int, Lit('/'), Lit('/'), Int]

  /** "%d//%d %d//%d %d//%d" */
  const VnFormat: seq<Directive> := ThreeOf(VnCorner)
  const VnTargets: seq<Var> := [V0, N0, V1, N1, V2, N2]

  /** "%d/%d/%d" */
  const VtnProbe: seq<Directive> := [Int, Lit('/'), Int, Lit('/'), Int]
  const VtnProbeTargets: seq<Var> := [V0, T0, N0]

  /** "%d/%d/%d %d/%d/%d %d/%d/%d" */
  const VtnFormat: seq<Directive> := ThreeOf(VtnProbe)
  const VtnTargets: seq<Var> := [V0, T0, N0, V1, T1, N1, V2, T2, N2]

  /** "%d/%d" */
  const VtProbe: seq<Directive> := [Int, Lit('/'), Int]
  const VtProbeTargets: seq<Var> := [V0, T0]

  /** "%d/%d %d/%d %d/%d" */
  const VtFormat: seq<Directive> := ThreeOf(VtProbe)
  const VtTargets: seq<Var> := [V0, T0, V1, T1, V2, T2]

  /** "%d", one corner of a plain v face */
  const VCorner: seq<Directive> := [Int]

  /** "%d %d %d" */
  const VFormat: seq<Directive> := ThreeOf(VCorner)
  const VTargets: seq<Var> := [V0, V1, V2]

  /** Each format converts as many values as it has locals to store them in. */
  lemma FormatsFit()
    ensures Conversions(VnFormat) == |VnTargets| == 6 && Distinct(VnTargets)
    ensures Conversions(VtnProbe) == |VtnProbeTargets| == 3 && Distinct(VtnProbeTargets)
    ensures Conversions(VtnFormat) == |VtnTargets| == 9 && Distinct(VtnTargets)
    ensures Conversions(VtProbe) == |VtProbeTargets| == 2 && Distinct(VtProbeTargets)
    ensures Conversions(VtFormat) == |VtTargets| == 6 && Distinct(VtTargets)
    ensures Conversions(VFormat) == |VTargets| == 3 && Distinct(VTargets)
  {
    ThreeCorners(VnCorner, 2);
    ThreeCorners(VtnProbe, 3);
    ThreeCorners(VtProbe, 2);
    ThreeCorners(VCorner, 1);
    DistinctTargets();
  }

  /** A face format is one corner format repeated three times, separated by white space. */
  lemma ThreeCorners(corner: seq<Directive>, n: nat)
    requires Conversions(corner) == n
    ensures Conversions(ThreeOf(corner)) == 3 * n
  {
    ConversionsAppend([Space], corner);
    ConversionsAppend(corner, [Space] + corner);
    ConversionsAppend(corner + ([Space] + corner), [Space] + corner);
  }

  lemma DistinctTargets()
    ensures Distinct(VnTargets) && Distinct(VtnProbeTargets) && Distinct(VtnTargets)
    ensures Distinct(VtProbeTargets) && Distinct(VtTargets) && Distinct(VTargets)
  {
  }

  /** The four branches of the face decoder. */
  datatype FaceForm = VnForm | VtnForm | VtForm | VForm

  datatype FaceResult = FaceResult(form: FaceForm, vars: ScanVars, store: TriangleStore)

  /**
   * The face decoder as written: the v/t/n branch is taken whenever the
   * "%d/%d/%d" probe returns non-zero (a partial match or EOF included),
   * the v/t branch whenever "%d/%d" does. Every probe stores into the
   * locals like any other sscanf call.
   */
  function DecodeFace(buf: seq<char>, vars: ScanVars): FaceResult {
    FormatsFit();
    if Strstr(buf, "//") >= 0 then
      var w := ScanInto(vars, VnFormat, VnTargets, buf).vars;
      FaceResult(VnForm, w, Full(w.Corners(), w.NormalRefs()))
    else
      var probe := ScanInto(vars, VtnProbe, VtnProbeTargets, buf);
      if probe.returned != 0 then
        var w := ScanInto(probe.vars, VtnFormat, VtnTargets, buf).vars;
        FaceResult(VtnForm, w, Full(w.Corners(), w.NormalRefs()))
      else
        var probe2 := ScanInto(probe.vars, VtProbe, VtProbeTargets, buf);
        if probe2.returned != 0 then
          var w := ScanInto(probe2.vars, VtFormat, VtTargets, buf).vars;
          FaceResult(VtForm, w, VerticesOnly(w.Corners()))
        else
          var w := ScanInto(probe2.vars, VFormat, VTargets, buf).vars;
          FaceResult(VForm, w, VerticesOnly(w.Corners()))
  }

  /**
   * The face decoder as evidently intended: the v/t/n branch only when the
   * probe converts all three fields of the first corner, the v/t branch only
   * when its probe converts both.
   */
  function DecodeFaceIntended(buf: seq<char>, vars: ScanVars): FaceResult {
    FormatsFit();
    if Strstr(buf, "//") >= 0 then
      var w := ScanInto(vars, VnFormat, VnTargets, buf).vars;
      FaceResult(VnForm, w, Full(w.Corners(), w.NormalRefs()))
    else
      var probe := ScanInto(vars, VtnProbe, VtnProbeTargets, buf);
      if probe.returned == 3 then
        var w := ScanInto(probe.vars, VtnFormat, VtnTargets, buf).vars;
        FaceResult(VtnForm, w, Full(w.Corners(), w.NormalRefs()))
      else
        var probe2 := ScanInto(probe.vars, VtProbe, VtProbeTargets, buf);
        if probe2.returned == 2 then
          var w := ScanInto(probe2.vars, VtFormat, VtTargets, buf).vars;
          FaceResult(VtForm, w, VerticesOnly(w.Corners()))
        else
          var w := ScanInto(probe2.vars, VFormat, VTargets, buf).vars;
          FaceResult(VForm, w, VerticesOnly(w.Corners()))
  }

  // ----- Which branch a face line takes, and what the locals then hold -----

  /**
   * The branch the decoder as written takes: "//" anywhere selects v//n;
   * otherwise the first %d alone decides, because both probes start with
   * it. A first token that is an integer, and a buffer of white space only
   * (EOF), select v/t/n; anything else selects plain v. The v/t branch is
   * never taken.
   */
  lemma FaceFormChoice(buf: seq<char>, vars: ScanVars)
    ensures var r := DecodeFace(buf, vars);
      (r.form == VnForm <==> Strstr(buf, "//") >= 0) &&
      (r.form == VtnForm <==> Strstr(buf, "//") < 0 && ScanInt(buf, 0) != NotConverted(MatchingFailure)) &&
      (r.form == VForm <==> Strstr(buf, "//") < 0 && ScanInt(buf, 0) == NotConverted(MatchingFailure)) &&
      r.form != VtForm
  {
    FormatsFit();
    FirstConversionDecides(VtnProbe, buf);
    FirstConversionDecides(VtProbe, buf);
  }

  /**
   * A v//n line stores the six values its scan converted into v0, n0, v1,
   * n1, v2, n2, in that order; the locals past the last converted value
   * keep what an earlier line left in them.
   */
  lemma VnFormFields(buf: seq<char>, vars: ScanVars)
    requires Strstr(buf, "//") >= 0
    ensures var r := DecodeFace(buf, vars);
      var full := Sscanf(VnFormat, buf).values;
      r.form == VnForm &&
      (forall i :: 0 <= i < |full| && i < |VnTargets| ==> r.vars.Get(VnTargets[i]) == full[i]) &&
      |full| <= |VnTargets| &&
      (forall i :: |full| <= i < |VnTargets| ==> r.vars.Get(VnTargets[i]) == vars.Get(VnTargets[i])) &&
      r.store == Full(r.vars.Corners(), r.vars.NormalRefs())
  {
    FormatsFit();
    var full := Sscanf(VnFormat, buf).values;
    var r := DecodeFace(buf, vars);
    forall i | |full| <= i < |VnTargets| ensures r.vars.Get(VnTargets[i]) == vars.Get(VnTargets[i]) {
      assert VnTargets[i] !in VnTargets[..|full|];
    }
  }

  /**
   * In the v/t/n branch, the nine-field scan decides the locals: v0, t0, n0,
   * v1, ... take the values it converted, and the rest keep their values
   * from earlier lines. The probe's stores are overwritten by equal values,
   * because its conversions are a prefix of the full scan's.
   */
  lemma VtnFormFields(buf: seq<char>, vars: ScanVars)
    requires DecodeFace(buf, vars).form == VtnForm
    ensures var r := DecodeFace(buf, vars);
      var full := Sscanf(VtnFormat, buf).values;
      (forall i :: 0 <= i < |full| && i < |VtnTargets| ==> r.vars.Get(VtnTargets[i]) == full[i]) &&
      |full| <= |VtnTargets| &&
      (forall i :: |full| <= i < |VtnTargets| ==> r.vars.Get(VtnTargets[i]) == vars.Get(VtnTargets[i])) &&
      r.store == Full(r.vars.Corners(), r.vars.NormalRefs())
  {
    FormatsFit();
    VtnProbeIsPrefix();
    RunPrefix(VtnProbe, [Space] + VtnProbe + ([Space] + VtnProbe), buf, 0);
    AssignTwice(vars, VtnProbeTargets, VtnTargets, Sscanf(VtnProbe, buf).values, Sscanf(VtnFormat, buf).values);
  }

  /** The v/t/n probe is the first corner of the full v/t/n format, and writes the first three of its locals. */
  lemma VtnProbeIsPrefix()
    ensures VtnFormat == VtnProbe + ([Space] + VtnProbe + ([Space] + VtnProbe))
    ensures VtnProbeTargets == VtnTargets[..3]
  {
  }

  /**
   * Two scans in a row, the first writing a prefix of what the second
   * writes: whatever the second leaves alone still holds its value from
   * before both.
   */
  lemma AssignTwice(vars: ScanVars, t1: seq<Var>, t2: seq<Var>, v1: seq<int>, v2: seq<int>)
    requires Distinct(t1) && Distinct(t2)
    requires |v1| <= |t1| <= |t2| && |v2| <= |t2| && v1 <= v2
    requires t1 == t2[..|t1|]
    ensures forall i :: |v2| <= i < |t2| ==> Assign(Assign(vars, t1, v1), t2, v2).Get(t2[i]) == vars.Get(t2[i])
  {
    var w1 := Assign(vars, t1, v1);
    forall i | |v2| <= i < |t2| ensures Assign(w1, t2, v2).Get(t2[i]) == vars.Get(t2[i]) {
      assert t2[i] !in t2[..|v2|];
      assert t2[i] !in t1[..|v1|] by {
        assert t1[..|v1|] == t2[..|v1|];
      }
    }
  }

  /** A plain v line converts nothing, so its triangle gets the vertex indices of an earlier line. */
  lemma VFormStale(buf: seq<char>, vars: ScanVars)
    requires DecodeFace(buf, vars).form == VForm
    ensures DecodeFace(buf, vars).vars == vars
    ensures DecodeFace(buf, vars).store == VerticesOnly(vars.Corners())
  {
    FaceFormChoice(buf, vars);
    FormatsFit();
    assert Sscanf(VtnProbe, buf).values == [];
    assert Sscanf(VtProbe, buf).values == [];
    assert VFormat[0] == Int;
    assert Sscanf(VFormat, buf).values == [];
  }
}
