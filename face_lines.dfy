// Face lines as an OBJ writer spells them in each of the four encodings,
// and what the population pass's face decoder makes of them: the round trip
// holds for v//n and v/t/n lines; for v/t and plain v lines the decoder as
// written takes the v/t/n branch and keeps stale indices, while the intended
// decoder gives the round trip back.
module FaceLines {
  import opened Scan
  import opened Faces

  /** One corner of a face: vertex, texture-coordinate and normal references. */
  datatype Ref = Ref(v: nat, t: nat, n: nat)

  /** The scanf format of one corner in each encoding. */
  function CornerFormat(form: FaceForm): seq<Directive> {
    match form
    case VnForm => VnCorner
    case VtnForm => VtnProbe
    case VtForm => VtProbe
    case VForm => VCorner
  }

  /** The references a corner spells out in each encoding. */
  function CornerValues(form: FaceForm, r: Ref): seq<nat> {
    match form
    case VnForm => [r.v, r.n]
    case VtnForm => [r.v, r.t, r.n]
    case VtForm => [r.v, r.t]
    case VForm => [r.v]
  }

  function CornerText(form: FaceForm, r: Ref): seq<char> {
    match form
    case VnForm => Show(r.v) + "//" + Show(r.n)
    case VtnForm => Show(r.v) + "/" + Show(r.t) + "/" + Show(r.n)
    case VtForm => Show(r.v) + "/" + Show(r.t)
    case VForm => Show(r.v)
  }

  /** The rest of an `f` line, after the 'f', in the given encoding. */
  function FaceLine(form: FaceForm, a: Ref, b: Ref, c: Ref): seq<char> {
    " " + (CornerText(form, a) + (" " + (CornerText(form, b) + (" " + CornerText(form, c)))))
  }

  /** The triangle a face line spells out: its vertex references, and its normal references when it has them. */
  function Spelled(form: FaceForm, a: Ref, b: Ref, c: Ref): TriangleStore {
    if form == VnForm || form == VtnForm then Full([a.v, b.v, c.v], [a.n, b.n, c.n])
    else VerticesOnly([a.v, b.v, c.v])
  }

  /** Each corner format reads back unambiguously and prints a corner as its text. */
  lemma CornerPrinted(form: FaceForm, r: Ref)
    ensures Separated(CornerFormat(form))
    ensures Conversions(CornerFormat(form)) == |CornerValues(form, r)|
    ensures Print(CornerFormat(form), CornerValues(form, r)) == CornerText(form, r)
    ensures CornerFormat(form)[|CornerFormat(form)| - 1] == Int
    ensures CornerFormat(form)[0] == Int
  {
    match form
    case VnForm => VnCornerPrinted(r);
    case VtnForm => VtnCornerPrinted(r);
    case VtForm => VtCornerPrinted(r);
    case VForm => LastNumber(r.v);
  }

  /** "%d" prints a number as itself. */
  lemma LastNumber(n: nat)
    ensures Separated([Int]) && Conversions([Int]) == 1
    ensures Print([Int], [n]) == Show(n)
  {
    PrintInt(n, [], []);
    assert [Int] + [] == [Int] && [n] + [] == [n];
  }

  /** "/%d" prints a slash and a number. */
  lemma SlashNumber(n: nat)
    ensures Separated([Lit('/'), Int]) && Conversions([Lit('/'), Int]) == 1
    ensures Print([Lit('/'), Int], [n]) == "/" + Show(n)
  {
    LastNumber(n);
    PrintLit('/', [Int], [n]);
    assert [Lit('/')] + [Int] == [Lit('/'), Int];
  }

  lemma VnCornerPrinted(r: Ref)
    ensures Separated(VnCorner) && Conversions(VnCorner) == 2
    ensures Print(VnCorner, [r.v, r.n]) == Show(r.v) + "//" + Show(r.n)
  {
    var sl := Lit('/');
    SlashNumber(r.n);
    PrintLit('/', [sl, Int], [r.n]);
    assert [sl] + [sl, Int] == [sl, sl, Int];
    PrintInt(r.v, [sl, sl, Int], [r.n]);
    assert [Int] + [sl, sl, Int] == VnCorner && [r.v] + [r.n] == [r.v, r.n];
    assert Show(r.v) + ("/" + ("/" + Show(r.n))) == Show(r.v) + "//" + Show(r.n);
  }

  lemma VtnCornerPrinted(r: Ref)
    ensures Separated(VtnProbe) && Conversions(VtnProbe) == 3
    ensures Print(VtnProbe, [r.v, r.t, r.n]) == Show(r.v) + "/" + Show(r.t) + "/" + Show(r.n)
  {
    var sl := Lit('/');
    SlashNumber(r.n);
    PrintInt(r.t, [sl, Int], [r.n]);
    assert [Int] + [sl, Int] == [Int, sl, Int] && [r.t] + [r.n] == [r.t, r.n];
    PrintLit('/', [Int, sl, Int], [r.t, r.n]);
    assert [sl] + [Int, sl, Int] == [sl, Int, sl, Int];
    PrintInt(r.v, [sl, Int, sl, Int], [r.t, r.n]);
    assert [Int] + [sl, Int, sl, Int] == VtnProbe && [r.v] + [r.t, r.n] == [r.v, r.t, r.n];
    assert Show(r.v) + ("/" + (Show(r.t) + ("/" + Show(r.n)))) == Show(r.v) + "/" + Show(r.t) + "/" + Show(r.n);
  }

  lemma VtCornerPrinted(r: Ref)
    ensures Separated(VtProbe) && Conversions(VtProbe) == 2
    ensures Print(VtProbe, [r.v, r.t]) == Show(r.v) + "/" + Show(r.t)
  {
    var sl := Lit('/');
    SlashNumber(r.t);
    PrintInt(r.v, [sl, Int], [r.t]);
    assert [Int] + [sl, Int] == VtProbe && [r.v] + [r.t] == [r.v, r.t];
    assert Show(r.v) + ("/" + Show(r.t)) == Show(r.v) + "/" + Show(r.t);
  }

  /** A corner's text, followed by something that is not a digit, scans back completely. */
  lemma ScanCorner(form: FaceForm, r: Ref, s: seq<char>, p: nat, tail: seq<char>)
    requires p <= |s|
    requires s[p..] == CornerText(form, r) + tail
    requires tail == [] || !IsDigit(tail[0])
    ensures Run(CornerFormat(form), s, p) == Outcome(CornerValues(form, r), Complete, p + |CornerText(form, r)|)
  {
    CornerPrinted(form, r);
    ScanPrinted(CornerFormat(form), CornerValues(form, r), s, p, tail);
  }

  /** The same, for a white-space directive and a corner after one space. */
  lemma ScanSpacedCorner(form: FaceForm, r: Ref, s: seq<char>, p: nat, tail: seq<char>)
    requires p <= |s|
    requires s[p..] == " " + (CornerText(form, r) + tail)
    requires tail == [] || !IsDigit(tail[0])
    ensures p < |s| && s[p] == ' '
    ensures Run([Space] + CornerFormat(form), s, p) == Outcome(CornerValues(form, r), Complete, p + 1 + |CornerText(form, r)|)
  {
    var text := CornerText(form, r);
    SuffixSplit(s, p, " ", text + tail);
    assert s[p] == s[p..p + 1][0];
    CornerDigitFirst(form, r);
    assert s[p + 1] == (text + tail)[0] == text[0];
    assert SkipSpace(s, p) == p + 1;
    assert ([Space] + CornerFormat(form))[1..] == CornerFormat(form);
    ScanCorner(form, r, s, p + 1, tail);
  }

  /** A corner's text starts with the digits of its vertex reference. */
  lemma CornerDigitFirst(form: FaceForm, r: Ref)
    ensures |CornerText(form, r)| > 0 && IsDigit(CornerText(form, r)[0])
  {
    var sv := Show(r.v);
    assert IsDigit(sv[0]);
    match form
    case VnForm => assert (sv + "//")[0] == sv[0];
    case VtnForm =>
      assert (sv + "/")[0] == sv[0];
      assert (sv + "/" + Show(r.t))[0] == sv[0];
      assert (sv + "/" + Show(r.t) + "/")[0] == sv[0];
    case VtForm => assert (sv + "/")[0] == sv[0];
    case VForm =>
  }

  /** The face format of an encoding reads back all references of a face line written in it. */
  lemma ScanFaceLine(form: FaceForm, a: Ref, b: Ref, c: Ref)
    ensures var s := FaceLine(form, a, b, c);
      Run(ThreeOf(CornerFormat(form)), s, 0)
        == Outcome(CornerValues(form, a) + CornerValues(form, b) + CornerValues(form, c), Complete, |s|)
  {
    var s := FaceLine(form, a, b, c);
    var p1 := ScanFirstCorner(form, a, b, c);
    var p2 := ScanSecondCorner(form, a, b, c, p1);
    ScanThirdCorner(form, a, b, c, p2);
    CornerPrinted(form, a);
    ScanThree(CornerFormat(form), s, p1, p2, |s|, CornerValues(form, a), CornerValues(form, b), CornerValues(form, c));
  }

  /** The first corner of a face line scans back; p1 is where the second starts. */
  lemma ScanFirstCorner(form: FaceForm, a: Ref, b: Ref, c: Ref) returns (p1: nat)
    ensures p1 == 1 + |CornerText(form, a)|
    ensures var s := FaceLine(form, a, b, c);
      && 1 <= p1 < |s| && s[0] == ' ' && s[p1] == ' '
      && Run(CornerFormat(form), s, 1) == Outcome(CornerValues(form, a), Complete, p1)
  {
    var s := FaceLine(form, a, b, c);
    var B, C := CornerText(form, b), CornerText(form, c);
    p1 := 1 + |CornerText(form, a)|;
    ThreeParts(s, CornerText(form, a), B, C);
    ScanCorner(form, a, s, 1, " " + (B + (" " + C)));
    assert s[p1] == s[p1..][0];
  }

  /** The second corner, after its space; p2 is where the third starts. */
  lemma ScanSecondCorner(form: FaceForm, a: Ref, b: Ref, c: Ref, p1: nat) returns (p2: nat)
    requires p1 == 1 + |CornerText(form, a)|
    ensures p2 == 2 + |CornerText(form, a)| + |CornerText(form, b)|
    ensures var s := FaceLine(form, a, b, c);
      && p1 < p2 <= |s|
      && Run([Space] + CornerFormat(form), s, p1) == Outcome(CornerValues(form, b), Complete, p2)
  {
    var s := FaceLine(form, a, b, c);
    var A, B, C := CornerText(form, a), CornerText(form, b), CornerText(form, c);
    p2 := 2 + |A| + |B|;
    ThreeParts(s, A, B, C);
    ScanSpacedCorner(form, b, s, p1, " " + C);
  }

  /** The third corner, after its space, ends the line. */
  lemma ScanThirdCorner(form: FaceForm, a: Ref, b: Ref, c: Ref, p2: nat)
    requires p2 == 2 + |CornerText(form, a)| + |CornerText(form, b)|
    ensures var s := FaceLine(form, a, b, c);
      && p2 <= |s|
      && Run([Space] + CornerFormat(form), s, p2) == Outcome(CornerValues(form, c), Complete, |s|)
  {
    var s := FaceLine(form, a, b, c);
    var A, B, C := CornerText(form, a), CornerText(form, b), CornerText(form, c);
    ThreeParts(s, A, B, C);
    ScanSpacedCorner(form, c, s, p2, []);
  }

  /** Where the three corner texts of a face line sit. */
  lemma ThreeParts(s: seq<char>, A: seq<char>, B: seq<char>, C: seq<char>)
    requires s == " " + (A + (" " + (B + (" " + C))))
    ensures s[0] == ' '
    ensures s[1..] == A + (" " + (B + (" " + C)))
    ensures s[1 + |A|..] == " " + (B + (" " + C))
    ensures s[2 + |A| + |B|..] == " " + (C + [])
  {
    var T2 := " " + C;
    var T1 := " " + (B + T2);
    assert s[0..] == " " + (A + T1);
    SuffixSplit(s, 0, " ", A + T1);
    SuffixSplit(s, 1, A, T1);
    SuffixSplit(s, 1 + |A|, " ", B + T2);
    SuffixSplit(s, 2 + |A|, B, T2);
    assert C + [] == C;
  }

  /** Three corners scanned one after another make one scan of the whole face format. */
  lemma ScanThree(cf: seq<Directive>, s: seq<char>, p1: nat, p2: nat, e: nat,
                  va: seq<int>, vb: seq<int>, vc: seq<int>)
    requires 1 <= p1 <= p2 <= |s| && s[0] == ' '
    requires cf != [] && cf[0] == Int
    requires Run(cf, s, 1) == Outcome(va, Complete, p1)
    requires Run([Space] + cf, s, p1) == Outcome(vb, Complete, p2)
    requires Run([Space] + cf, s, p2) == Outcome(vc, Complete, e)
    ensures Run(ThreeOf(cf), s, 0) == Outcome(va + vb + vc, Complete, e)
  {
    var x := [Space] + cf;
    RunThen(x, x, s, p1, vb, p2, vc, e);
    RunThen(cf, x + x, s, 1, va, p1, vb + vc, e);
    ThreeOfGrouped(cf);
    RunAfterSpace(ThreeOf(cf), s);
    assert va + (vb + vc) == va + vb + vc;
  }

  // ----- Where "//" occurs -----

  /** No '/' is directly followed by another. */
  predicate NoSlashPair(s: seq<char>) {
    forall i :: 0 <= i < |s| - 1 && s[i] == '/' ==> s[i + 1] != '/'
  }

  lemma SlashPairAt(s: seq<char>, r: int)
    requires OccursAt(s, "//", r)
    ensures 0 <= r < |s| - 1 && s[r] == '/' && s[r + 1] == '/'
  {
    assert s[r..r + 2] == "//";
  }

  lemma NoSlashPairNotFound(s: seq<char>)
    requires NoSlashPair(s)
    ensures Strstr(s, "//") < 0
  {
    var r := Strstr(s, "//");
    if r >= 0 {
      SlashPairAt(s, r);
      assert false;
    }
  }

  lemma NoSlashPairAppend(x: seq<char>, y: seq<char>)
    requires NoSlashPair(x) && NoSlashPair(y)
    requires |x| == 0 || |y| == 0 || x[|x| - 1] != '/' || y[0] != '/'
    ensures NoSlashPair(x + y)
  {
    var s := x + y;
    forall i | 0 <= i < |s| - 1 && s[i] == '/' ensures s[i + 1] != '/' {
      if i + 1 < |x| {
        assert s[i] == x[i] && s[i + 1] == x[i + 1];
      } else if i >= |x| {
        assert s[i] == y[i - |x|] && s[i + 1] == y[i - |x| + 1];
      }
    }
  }

  lemma DigitsHaveNoSlashPair(s: seq<char>)
    requires AllDigits(s)
    ensures NoSlashPair(s)
  {
  }

  /** Outside v//n, a written corner has no "//" and starts and ends with a digit. */
  lemma CornerHasNoSlashPair(form: FaceForm, r: Ref)
    requires form != VnForm
    ensures NoSlashPair(CornerText(form, r))
    ensures IsDigit(CornerText(form, r)[0]) && IsDigit(CornerText(form, r)[|CornerText(form, r)| - 1])
  {
    var sv, st, sn := Show(r.v), Show(r.t), Show(r.n);
    DigitsHaveNoSlashPair(sv);
    DigitsHaveNoSlashPair(st);
    DigitsHaveNoSlashPair(sn);
    match form
    case VtnForm =>
      NoSlashPairAppend(sv, "/");
      NoSlashPairAppend(sv + "/", st);
      NoSlashPairAppend(sv + "/" + st, "/");
      NoSlashPairAppend(sv + "/" + st + "/", sn);
    case VtForm =>
      NoSlashPairAppend(sv, "/");
      NoSlashPairAppend(sv + "/", st);
    case VForm =>
  }

  /** A face line written in v/t/n, v/t or plain v has no "//", so the decoder does not take the v//n branch. */
  lemma NoSlashPairOutsideVn(form: FaceForm, a: Ref, b: Ref, c: Ref)
    requires form != VnForm
    ensures Strstr(FaceLine(form, a, b, c), "//") < 0
  {
    var A, B, C := CornerText(form, a), CornerText(form, b), CornerText(form, c);
    CornerHasNoSlashPair(form, a);
    CornerHasNoSlashPair(form, b);
    CornerHasNoSlashPair(form, c);
    NoSlashPairAppend(" ", C);
    NoSlashPairAppend(B, " " + C);
    NoSlashPairAppend(" ", B + (" " + C));
    NoSlashPairAppend(A, " " + (B + (" " + C)));
    NoSlashPairAppend(" ", A + (" " + (B + (" " + C))));
    NoSlashPairNotFound(FaceLine(form, a, b, c));
  }

  /** A v//n line has "//" right after its first vertex reference. */
  lemma SlashPairInVn(a: Ref, b: Ref, c: Ref)
    ensures Strstr(FaceLine(VnForm, a, b, c), "//") >= 0
  {
    DoubleSlashAfter(Show(a.v), Show(a.n), " " + (CornerText(VnForm, b) + (" " + CornerText(VnForm, c))));
  }

  /** A line made of a blank, a first reference, "//", a second, then anything: "//" sits just after the first reference. */
  lemma DoubleSlashAfter(first: seq<char>, second: seq<char>, rest: seq<char>)
    ensures OccursAt(" " + ((first + "//" + second) + rest), "//", 1 + |first|)
  {
    var s := " " + ((first + "//" + second) + rest);
    var k := 1 + |first|;
    assert s[k] == '/' && s[k + 1] == '/';
    assert s[k..k + 2] == "//";
  }

  // ----- What the decoder stores, for any buffer -----

  /** A local after a scan: the i-th converted value when there is one, otherwise what it held. */
  function Field(vals: seq<int>, i: nat, held: int): (r: int)
    ensures i < |vals| ==> r == vals[i]
    ensures i >= |vals| ==> r == held
  {
    if i < |vals| then vals[i] else held
  }

  /** The v//n branch stores the scanned references, and stale locals past the last conversion. */
  lemma VnStore(buf: seq<char>, vars: ScanVars)
    requires Strstr(buf, "//") >= 0
    ensures var vals := Sscanf(VnFormat, buf).values;
      DecodeFace(buf, vars).store
        == Full([Field(vals, 0, vars.v0), Field(vals, 2, vars.v1), Field(vals, 4, vars.v2)],
                [Field(vals, 1, vars.n0), Field(vals, 3, vars.n1), Field(vals, 5, vars.n2)])
    ensures DecodeFaceIntended(buf, vars) == DecodeFace(buf, vars)
  {
    VnFormFields(buf, vars);
    var vals := Sscanf(VnFormat, buf).values;
    VnFields(DecodeFace(buf, vars).vars, vars, vals);
  }

  /** The triangle of a v//n scan, read off the locals it wrote and those it left alone. */
  lemma VnFields(w: ScanVars, vars: ScanVars, vals: seq<int>)
    requires |vals| <= |VnTargets|
    requires forall i :: 0 <= i < |vals| && i < |VnTargets| ==> w.Get(VnTargets[i]) == vals[i]
    requires forall i :: |vals| <= i < |VnTargets| ==> w.Get(VnTargets[i]) == vars.Get(VnTargets[i])
    ensures Full(w.Corners(), w.NormalRefs())
      == Full([Field(vals, 0, vars.v0), Field(vals, 2, vars.v1), Field(vals, 4, vars.v2)],
              [Field(vals, 1, vars.n0), Field(vals, 3, vars.n1), Field(vals, 5, vars.n2)])
  {
    FieldAfterScan(w, vars, VnTargets, vals, 0);
    FieldAfterScan(w, vars, VnTargets, vals, 1);
    FieldAfterScan(w, vars, VnTargets, vals, 2);
    FieldAfterScan(w, vars, VnTargets, vals, 3);
    FieldAfterScan(w, vars, VnTargets, vals, 4);
    FieldAfterScan(w, vars, VnTargets, vals, 5);
  }

  /** One local after a scan into targets: its converted value, or what it held before. */
  lemma FieldAfterScan(after: ScanVars, before: ScanVars, targets: seq<Var>, vals: seq<int>, j: nat)
    requires |vals| <= |targets| && j < |targets|
    requires forall i :: 0 <= i < |vals| && i < |targets| ==> after.Get(targets[i]) == vals[i]
    requires forall i :: |vals| <= i < |targets| ==> after.Get(targets[i]) == before.Get(targets[i])
    ensures after.Get(targets[j]) == Field(vals, j, before.Get(targets[j]))
  {
  }

  /** The v/t/n branch stores the scanned references, and stale locals past the last conversion. */
  lemma VtnStore(buf: seq<char>, vars: ScanVars)
    requires DecodeFace(buf, vars).form == VtnForm
    ensures var vals := Sscanf(VtnFormat, buf).values;
      DecodeFace(buf, vars).store
        == Full([Field(vals, 0, vars.v0), Field(vals, 3, vars.v1), Field(vals, 6, vars.v2)],
                [Field(vals, 2, vars.n0), Field(vals, 5, vars.n1), Field(vals, 8, vars.n2)])
  {
    VtnFormFields(buf, vars);
    var vals := Sscanf(VtnFormat, buf).values;
    VtnFields(DecodeFace(buf, vars).vars, vars, vals);
  }

  /** The triangle of a v/t/n scan, read off the locals it wrote and those it left alone. */
  lemma VtnFields(w: ScanVars, vars: ScanVars, vals: seq<int>)
    requires |vals| <= |VtnTargets|
    requires forall i :: 0 <= i < |vals| && i < |VtnTargets| ==> w.Get(VtnTargets[i]) == vals[i]
    requires forall i :: |vals| <= i < |VtnTargets| ==> w.Get(VtnTargets[i]) == vars.Get(VtnTargets[i])
    ensures Full(w.Corners(), w.NormalRefs())
      == Full([Field(vals, 0, vars.v0), Field(vals, 3, vars.v1), Field(vals, 6, vars.v2)],
              [Field(vals, 2, vars.n0), Field(vals, 5, vars.n1), Field(vals, 8, vars.n2)])
  {
    FieldAfterScan(w, vars, VtnTargets, vals, 0);
    FieldAfterScan(w, vars, VtnTargets, vals, 2);
    FieldAfterScan(w, vars, VtnTargets, vals, 3);
    FieldAfterScan(w, vars, VtnTargets, vals, 5);
    FieldAfterScan(w, vars, VtnTargets, vals, 6);
    FieldAfterScan(w, vars, VtnTargets, vals, 8);
  }

  /** The intended decoder's v/t branch stores the three scanned vertex references. */
  lemma VtStoreIntended(buf: seq<char>, vars: ScanVars)
    requires Strstr(buf, "//") < 0
    requires Returned(Sscanf(VtnProbe, buf)) != 3 && Returned(Sscanf(VtProbe, buf)) == 2
    requires |Sscanf(VtFormat, buf).values| == 6
    ensures var vals := Sscanf(VtFormat, buf).values;
      DecodeFaceIntended(buf, vars) == DecodeFaceIntended(buf, vars).(form := VtForm, store := VerticesOnly([vals[0], vals[2], vals[4]]))
  {
    FormatsFit();
    var vals := Sscanf(VtFormat, buf).values;
    var r := DecodeFaceIntended(buf, vars);
    assert r.vars.Get(VtTargets[0]) == vals[0] && r.vars.Get(VtTargets[2]) == vals[2] && r.vars.Get(VtTargets[4]) == vals[4];
  }

  /** The intended decoder's plain v branch stores the three scanned vertex references. */
  lemma VStoreIntended(buf: seq<char>, vars: ScanVars)
    requires Strstr(buf, "//") < 0
    requires Returned(Sscanf(VtnProbe, buf)) != 3 && Returned(Sscanf(VtProbe, buf)) != 2
    requires |Sscanf(VFormat, buf).values| == 3
    ensures var vals := Sscanf(VFormat, buf).values;
      DecodeFaceIntended(buf, vars) == DecodeFaceIntended(buf, vars).(form := VForm, store := VerticesOnly([vals[0], vals[1], vals[2]]))
  {
    FormatsFit();
    var vals := Sscanf(VFormat, buf).values;
    var r := DecodeFaceIntended(buf, vars);
    assert r.vars.Get(VTargets[0]) == vals[0] && r.vars.Get(VTargets[1]) == vals[1] && r.vars.Get(VTargets[2]) == vals[2];
  }

  /** When the "%d/%d/%d" probe converts all three fields, both decoders take the same v/t/n branch. */
  lemma VtnIntendedAgrees(buf: seq<char>, vars: ScanVars)
    requires Strstr(buf, "//") < 0
    requires Returned(Sscanf(VtnProbe, buf)) == 3
    ensures DecodeFaceIntended(buf, vars) == DecodeFace(buf, vars)
    ensures DecodeFace(buf, vars).form == VtnForm
  {
  }

  /** A complete nine-field scan makes the probe, its prefix, convert three fields. */
  lemma ProbeOfCompleteVtn(buf: seq<char>)
    requires Sscanf(VtnFormat, buf).stop == Complete
    ensures Returned(Sscanf(VtnProbe, buf)) == 3
  {
    VtnProbeIsPrefix();
    RunPrefix(VtnProbe, [Space] + VtnProbe + ([Space] + VtnProbe), buf, 0);
  }

  // ----- Scanning only the first corner -----

  /** A corner format alone reads the first corner of a line that starts with a space. */
  lemma FirstCornerAlone(cf: seq<Directive>, s: seq<char>, p1: nat, va: seq<int>)
    requires 1 <= p1 <= |s| && s[0] == ' '
    requires cf != [] && cf[0] == Int
    requires Run(cf, s, 1) == Outcome(va, Complete, p1)
    ensures Run(cf, s, 0) == Outcome(va, Complete, p1)
  {
    RunAfterSpace(cf, s);
  }

  /** A format that wants '/' after the first corner stops with a matching failure at the space after it. */
  lemma FirstCornerThenSlash(cf: seq<Directive>, more: seq<Directive>, s: seq<char>, p1: nat, va: seq<int>)
    requires 1 <= p1 < |s| && s[0] == ' ' && s[p1] == ' '
    requires cf != [] && cf[0] == Int
    requires Run(cf, s, 1) == Outcome(va, Complete, p1)
    ensures Run(cf + ([Lit('/')] + more), s, 0) == Outcome(va, MatchingFailure, p1)
  {
    var fmt := cf + ([Lit('/')] + more);
    assert fmt[0] == cf[0];
    RunAfterSpace(fmt, s);
    RunAppend(cf, [Lit('/')] + more, s, 1);
    assert Run([Lit('/')] + more, s, p1) == Outcome([], MatchingFailure, p1);
    assert va + [] == va;
  }

  /** The formats that begin with a v/t corner and then want another '/'. */
  lemma VtnAfterVt()
    ensures VtnProbe == VtProbe + ([Lit('/')] + [Int])
    ensures VtnFormat == VtProbe + ([Lit('/')] + ([Int] + [Space] + VtnProbe + ([Space] + VtnProbe)))
  {
  }

  /** The formats that begin with a plain v corner and then want a '/'. */
  lemma SlashAfterV()
    ensures VtnProbe == VCorner + ([Lit('/')] + [Int, Lit('/'), Int])
    ensures VtProbe == VCorner + ([Lit('/')] + [Int])
    ensures VtnFormat == VCorner + ([Lit('/')] + ([Int, Lit('/'), Int] + [Space] + VtnProbe + ([Space] + VtnProbe)))
  {
  }

  /** The v//n format reads every reference of a v//n line, and nothing stops it early. */
  lemma VnLineValues(a: Ref, b: Ref, c: Ref)
    ensures Sscanf(VnFormat, FaceLine(VnForm, a, b, c)).values == [a.v, a.n] + [b.v, b.n] + [c.v, c.n]
    ensures Sscanf(VnFormat, FaceLine(VnForm, a, b, c)).stop == Complete
  {
    ScanFaceLine(VnForm, a, b, c);
  }

  /** The v/t/n format reads every reference of a v/t/n line, and nothing stops it early. */
  lemma VtnLineValues(a: Ref, b: Ref, c: Ref)
    ensures Sscanf(VtnFormat, FaceLine(VtnForm, a, b, c)).values == [a.v, a.t, a.n] + [b.v, b.t, b.n] + [c.v, c.t, c.n]
    ensures Sscanf(VtnFormat, FaceLine(VtnForm, a, b, c)).stop == Complete
  {
    ScanFaceLine(VtnForm, a, b, c);
  }

  // ----- The round trips -----

  /** The v//n encoding round-trips, in both decoders. */
  lemma DecodeVnLine(a: Ref, b: Ref, c: Ref, vars: ScanVars)
    ensures var r := DecodeFace(FaceLine(VnForm, a, b, c), vars);
      r.form == VnForm && r.store == Full([a.v, b.v, c.v], [a.n, b.n, c.n])
    ensures DecodeFaceIntended(FaceLine(VnForm, a, b, c), vars) == DecodeFace(FaceLine(VnForm, a, b, c), vars)
  {
    var s := FaceLine(VnForm, a, b, c);
    SlashPairInVn(a, b, c);
    VnLineValues(a, b, c);
    VnStore(s, vars);
    FaceFormChoice(s, vars);
  }

  /** The v/t/n encoding round-trips, in both decoders; texture-coordinate references are dropped. */
  lemma DecodeVtnLine(a: Ref, b: Ref, c: Ref, vars: ScanVars)
    ensures var r := DecodeFace(FaceLine(VtnForm, a, b, c), vars);
      r.form == VtnForm && r.store == Full([a.v, b.v, c.v], [a.n, b.n, c.n])
    ensures DecodeFaceIntended(FaceLine(VtnForm, a, b, c), vars) == DecodeFace(FaceLine(VtnForm, a, b, c), vars)
  {
    NoSlashPairOutsideVn(VtnForm, a, b, c);
    VtnLineValues(a, b, c);
    CompleteVtnDecodes(FaceLine(VtnForm, a, b, c), vars, [a.v, a.t, a.n] + [b.v, b.t, b.n] + [c.v, c.t, c.n]);
  }

  /** A buffer with no "//" that the nine-field format reads completely: both decoders take v/t/n and keep its v and n fields. */
  lemma CompleteVtnDecodes(buf: seq<char>, vars: ScanVars, vals: seq<int>)
    requires Strstr(buf, "//") < 0
    requires Sscanf(VtnFormat, buf).values == vals && Sscanf(VtnFormat, buf).stop == Complete && |vals| == 9
    ensures DecodeFace(buf, vars).form == VtnForm
    ensures DecodeFace(buf, vars).store == Full([vals[0], vals[3], vals[6]], [vals[2], vals[5], vals[8]])
    ensures DecodeFaceIntended(buf, vars) == DecodeFace(buf, vars)
  {
    ProbeOfCompleteVtn(buf);
    VtnIntendedAgrees(buf, vars);
    VtnStore(buf, vars);
  }

  /** What each of the loader's scans reads from a v/t line. */
  lemma VtLineScans(a: Ref, b: Ref, c: Ref)
    ensures var s := FaceLine(VtForm, a, b, c);
      && Sscanf(VtnProbe, s).values == [a.v, a.t] && Sscanf(VtnProbe, s).stop == MatchingFailure
      && Sscanf(VtnFormat, s).values == [a.v, a.t]
      && Sscanf(VtProbe, s).values == [a.v, a.t] && Sscanf(VtProbe, s).stop == Complete
      && Sscanf(VtFormat, s).values == [a.v, a.t] + [b.v, b.t] + [c.v, c.t]
  {
    var s := FaceLine(VtForm, a, b, c);
    var p1 := ScanFirstCorner(VtForm, a, b, c);
    CornerPrinted(VtForm, a);
    VtnAfterVt();
    FirstCornerThenSlash(VtProbe, [Int], s, p1, [a.v, a.t]);
    FirstCornerThenSlash(VtProbe, [Int] + [Space] + VtnProbe + ([Space] + VtnProbe), s, p1, [a.v, a.t]);
    FirstCornerAlone(VtProbe, s, p1, [a.v, a.t]);
    ScanFaceLine(VtForm, a, b, c);
  }

  /** What each of the loader's scans reads from a plain v line. */
  lemma VLineScans(a: Ref, b: Ref, c: Ref)
    ensures var s := FaceLine(VForm, a, b, c);
      && Sscanf(VtnProbe, s).values == [a.v] && Sscanf(VtnProbe, s).stop == MatchingFailure
      && Sscanf(VtnFormat, s).values == [a.v]
      && Sscanf(VtProbe, s).values == [a.v] && Sscanf(VtProbe, s).stop == MatchingFailure
      && Sscanf(VFormat, s).values == [a.v] + [b.v] + [c.v]
  {
    var s := FaceLine(VForm, a, b, c);
    var p1 := ScanFirstCorner(VForm, a, b, c);
    CornerPrinted(VForm, a);
    SlashAfterV();
    FirstCornerThenSlash(VCorner, [Int, Lit('/'), Int], s, p1, [a.v]);
    FirstCornerThenSlash(VCorner, [Int], s, p1, [a.v]);
    FirstCornerThenSlash(VCorner, [Int, Lit('/'), Int] + [Space] + VtnProbe + ([Space] + VtnProbe), s, p1, [a.v]);
    ScanFaceLine(VForm, a, b, c);
  }

  /**
   * A v/t line, as written: the "%d/%d/%d" probe converts two fields, so
   * the v/t/n branch is taken; the triangle gets the first vertex reference
   * and, for the rest, the locals left by earlier face lines.
   */
  lemma DecodeVtLine(a: Ref, b: Ref, c: Ref, vars: ScanVars)
    ensures var r := DecodeFace(FaceLine(VtForm, a, b, c), vars);
      r.form == VtnForm && r.store == Full([a.v, vars.v1, vars.v2], [vars.n0, vars.n1, vars.n2])
  {
    var s := FaceLine(VtForm, a, b, c);
    NoSlashPairOutsideVn(VtForm, a, b, c);
    VtLineScans(a, b, c);
    FirstConversionDecides(VtnFormat, s);
    FaceFormChoice(s, vars);
    VtnStore(s, vars);
  }

  /** A plain v line, as written: like a v/t line, with one field converted. */
  lemma DecodeVLine(a: Ref, b: Ref, c: Ref, vars: ScanVars)
    ensures var r := DecodeFace(FaceLine(VForm, a, b, c), vars);
      r.form == VtnForm && r.store == Full([a.v, vars.v1, vars.v2], [vars.n0, vars.n1, vars.n2])
  {
    var s := FaceLine(VForm, a, b, c);
    NoSlashPairOutsideVn(VForm, a, b, c);
    VLineScans(a, b, c);
    FirstConversionDecides(VtnFormat, s);
    FaceFormChoice(s, vars);
    VtnStore(s, vars);
  }

  /** The intended decoder reads a v/t line's three vertex references; normals are left alone. */
  lemma DecodeVtLineIntended(a: Ref, b: Ref, c: Ref, vars: ScanVars)
    ensures var r := DecodeFaceIntended(FaceLine(VtForm, a, b, c), vars);
      r.form == VtForm && r.store == VerticesOnly([a.v, b.v, c.v])
  {
    var s := FaceLine(VtForm, a, b, c);
    NoSlashPairOutsideVn(VtForm, a, b, c);
    VtLineScans(a, b, c);
    VtStoreIntended(s, vars);
  }

  /** The intended decoder reads a plain v line's three vertex references; normals are left alone. */
  lemma DecodeVLineIntended(a: Ref, b: Ref, c: Ref, vars: ScanVars)
    ensures var r := DecodeFaceIntended(FaceLine(VForm, a, b, c), vars);
      r.form == VForm && r.store == VerticesOnly([a.v, b.v, c.v])
  {
    var s := FaceLine(VForm, a, b, c);
    NoSlashPairOutsideVn(VForm, a, b, c);
    VLineScans(a, b, c);
    VStoreIntended(s, vars);
  }

  /** The intended decoder reads every face line as the triangle it spells, in all four encodings. */
  lemma {:induction false} IntendedLoadsSpelled(form: FaceForm, a: Ref, b: Ref, c: Ref, vars: ScanVars)
    ensures DecodeFaceIntended(FaceLine(form, a, b, c), vars).store == Spelled(form, a, b, c)
  {
    match form {
      case VnForm => DecodeVnLine(a, b, c, vars);
      case VtnForm => DecodeVtnLine(a, b, c, vars);
      case VtForm => DecodeVtLineIntended(a, b, c, vars);
      case VForm => DecodeVLineIntended(a, b, c, vars);
    }
  }

  // ----- Concrete lines -----

  /** " 1//2 3//4 5//6" gives vertex references 1, 3, 5 and normal references 2, 4, 6. */
  lemma DoubleSlashExample(vars: ScanVars)
    ensures DecodeFace(" 1//2 3//4 5//6", vars).store == Full([1, 3, 5], [2, 4, 6])
  {
    assert FaceLine(VnForm, Ref(1, 0, 2), Ref(3, 0, 4), Ref(5, 0, 6)) == " 1//2 3//4 5//6";
    DecodeVnLine(Ref(1, 0, 2), Ref(3, 0, 4), Ref(5, 0, 6), vars);
  }

  /**
   * "f 1 2 3" as written: the triangle gets vertex references 1, then v1 and
   * v2 from whatever face came before, and that face's normal references.
   */
  lemma PlainFaceExample(vars: ScanVars)
    ensures DecodeFace(" 1 2 3", vars).store == Full([1, vars.v1, vars.v2], [vars.n0, vars.n1, vars.n2])
    ensures DecodeFaceIntended(" 1 2 3", vars).store == VerticesOnly([1, 2, 3])
  {
    assert FaceLine(VForm, Ref(1, 0, 0), Ref(2, 0, 0), Ref(3, 0, 0)) == " 1 2 3";
    DecodeVLine(Ref(1, 0, 0), Ref(2, 0, 0), Ref(3, 0, 0), vars);
    DecodeVLineIntended(Ref(1, 0, 0), Ref(2, 0, 0), Ref(3, 0, 0), vars);
  }
}
