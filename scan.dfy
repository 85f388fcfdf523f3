// The C library's sscanf, restricted to what the OBJ loader's format strings
// use: %d conversions, ordinary characters and white space. Also the strstr
// search the loader uses to spot "//" in a face line, and a canonical printer
// of integer records that the round-trip lemmas decode.
module Scan {

  /** One directive of a scanf format string. */
  datatype Directive =
    | Int          // %d: skip white space, optional sign, one or more decimal digits
    | Lit(c: char) // an ordinary character, which must be the next input character
    | Space        // white space in the format: skips any amount of input white space

  /** Why a scan stopped. */
  datatype Stop = Complete | MatchingFailure | InputFailure

  /** The values a scan converted, in order, why it stopped, and where in the input. */
  datatype Outcome = Outcome(values: seq<int>, stop: Stop, next: nat)

  /** The result of one %d conversion starting at some input position. */
  datatype IntScan = Converted(value: int, next: nat) | NotConverted(stop: Stop)

  /** isspace in the "C" locale: space, \t, \n, \v, \f, \r. */
  predicate IsSpace(c: char) {
    c == ' ' || '\t' <= c <= '\r'
  }

  predicate IsDigit(c: char) {
    '0' <= c <= '9'
  }

  predicate AllDigits(s: seq<char>) {
    forall i :: 0 <= i < |s| ==> IsDigit(s[i])
  }

  predicate AllSpaces(s: seq<char>) {
    forall i :: 0 <= i < |s| ==> IsSpace(s[i])
  }

  /** Number of %d conversions in a format. */
  function Conversions(fmt: seq<Directive>): nat {
    if fmt == [] then 0 else (if fmt[0] == Int then 1 else 0) + Conversions(fmt[1..])
  }

  lemma {:induction false} ConversionsAppend(a: seq<Directive>, b: seq<Directive>)
    ensures Conversions(a + b) == Conversions(a) + Conversions(b)
    decreases |a|
  {
    if a == [] {
      assert a + b == b;
    } else {
      assert (a + b)[1..] == a[1..] + b;
      ConversionsAppend(a[1..], b);
    }
  }

  /** First position at or after p that does not hold white space. */
  function SkipSpace(s: seq<char>, p: nat): (q: nat)
    requires p <= |s|
    ensures p <= q <= |s|
    ensures forall j :: p <= j < q ==> IsSpace(s[j])
    ensures q == |s| || !IsSpace(s[q])
    decreases |s| - p
  {
    if p < |s| && IsSpace(s[p]) then SkipSpace(s, p + 1) else p
  }

  /** End of the run of decimal digits that starts at p. */
  function DigitEnd(s: seq<char>, p: nat): (e: nat)
    requires p <= |s|
    ensures p <= e <= |s|
    ensures forall j :: p <= j < e ==> IsDigit(s[j])
    ensures e == |s| || !IsDigit(s[e])
    decreases |s| - p
  {
    if p < |s| && IsDigit(s[p]) then DigitEnd(s, p + 1) else p
  }

  /** The value of a decimal digit string, most significant digit first. */
  function DigitsValue(ds: seq<char>): nat
    requires AllDigits(ds)
  {
    if ds == [] then 0
    else DigitsValue(ds[..|ds| - 1]) * 10 + (ds[|ds| - 1] as int - '0' as int)
  }

  /**
   * One %d conversion at position p. It fails with an input failure when only
   * white space is left, and with a matching failure when the first
   * non-space character (after an optional sign) is not a digit.
   */
  function ScanInt(s: seq<char>, p: nat): (r: IntScan)
    requires p <= |s|
    ensures r.Converted? ==> p < r.next <= |s| && IsDigit(s[r.next - 1])
    ensures r.Converted? ==> r.next == |s| || !IsDigit(s[r.next])
    ensures r == NotConverted(InputFailure) <==> SkipSpace(s, p) == |s|
    ensures r.NotConverted? ==> r.stop != Complete
  {
    var q := SkipSpace(s, p);
    if q == |s| then NotConverted(InputFailure)
    else
      var d := if s[q] == '-' || s[q] == '+' then q + 1 else q;
      var e := DigitEnd(s, d);
      if e == d then NotConverted(MatchingFailure)
      else
        var magnitude: int := DigitsValue(s[d..e]);
        Converted(if s[q] == '-' then -magnitude else magnitude, e)
  }

  /**
   * Executes the directives of fmt on s from position p. A full run converts
   * one value per %d; a run that stops early has converted a prefix of them.
   */
  function Run(fmt: seq<Directive>, s: seq<char>, p: nat): (o: Outcome)
    requires p <= |s|
    ensures p <= o.next <= |s|
    ensures |o.values| <= Conversions(fmt)
    ensures o.stop == Complete ==> |o.values| == Conversions(fmt)
    decreases |fmt|
  {
    if fmt == [] then Outcome([], Complete, p)
    else
      match fmt[0]
      case Space => Run(fmt[1..], s, SkipSpace(s, p))
      case Lit(c) =>
        if p == |s| then Outcome([], InputFailure, p)
        else if s[p] == c then Run(fmt[1..], s, p + 1)
        else Outcome([], MatchingFailure, p)
      case Int =>
        match ScanInt(s, p)
        case NotConverted(stop) => Outcome([], stop, SkipSpace(s, p))
        case Converted(v, next) =>
          var rest := Run(fmt[1..], s, next);
          Outcome([v] + rest.values, rest.stop, rest.next)
  }

  /**
   * For a format that ends with %d, converting every value is completing:
   * nothing after the last conversion can fail.
   */
  lemma {:induction false} AllConvertedCompletes(fmt: seq<Directive>, s: seq<char>, p: nat)
    requires p <= |s| && fmt != [] && fmt[|fmt| - 1] == Int
    ensures |Run(fmt, s, p).values| == Conversions(fmt) ==> Run(fmt, s, p).stop == Complete
    decreases |fmt|
  {
    assert fmt == fmt[..|fmt| - 1] + [Int];
    ConversionsAppend(fmt[..|fmt| - 1], [Int]);
    if |fmt| > 1 {
      var rest := fmt[1..];
      assert rest[|rest| - 1] == Int;
      match fmt[0]
      case Space => AllConvertedCompletes(rest, s, SkipSpace(s, p));
      case Lit(c) =>
        if p < |s| && s[p] == c {
          AllConvertedCompletes(rest, s, p + 1);
        }
      case Int =>
        match ScanInt(s, p)
        case Converted(v, next) => AllConvertedCompletes(rest, s, next);
        case NotConverted(_) =>
    }
  }

  /** sscanf(s, fmt, ...) as the loader calls it: from the start of the buffer. */
  function Sscanf(fmt: seq<Directive>, s: seq<char>): Outcome {
    Run(fmt, s, 0)
  }

  /**
   * The int sscanf returns: EOF (-1) when the input ran out before the first
   * conversion, otherwise the number of values converted.
   */
  function Returned(o: Outcome): (n: int)
    ensures n == -1 || n == |o.values|
    ensures n == -1 <==> o.values == [] && o.stop == InputFailure
  {
    if o.values == [] && o.stop == InputFailure then -1 else |o.values|
  }

  /** Running fmt1 + fmt2 starts exactly as running fmt1 does. */
  lemma {:induction false} RunPrefix(fmt1: seq<Directive>, fmt2: seq<Directive>, s: seq<char>, p: nat)
    requires p <= |s|
    ensures Run(fmt1, s, p).values <= Run(fmt1 + fmt2, s, p).values
    ensures Run(fmt1, s, p).stop != Complete ==> Run(fmt1 + fmt2, s, p) == Run(fmt1, s, p)
    decreases |fmt1|
  {
    if fmt1 == [] {
      assert fmt1 + fmt2 == fmt2;
    } else {
      var f := fmt1 + fmt2;
      assert f[0] == fmt1[0] && f[1..] == fmt1[1..] + fmt2;
      match fmt1[0]
      case Space =>
        RunPrefix(fmt1[1..], fmt2, s, SkipSpace(s, p));
      case Lit(c) =>
        if p < |s| && s[p] == c {
          RunPrefix(fmt1[1..], fmt2, s, p + 1);
        }
      case Int =>
        match ScanInt(s, p)
        case NotConverted(stop) =>
        case Converted(v, next) =>
          RunPrefix(fmt1[1..], fmt2, s, next);
    }
  }

  /** After a complete run of fmt1, fmt1 + fmt2 goes on with fmt2 where fmt1 stopped. */
  lemma {:induction false} RunAppend(fmt1: seq<Directive>, fmt2: seq<Directive>, s: seq<char>, p: nat)
    requires p <= |s| && Run(fmt1, s, p).stop == Complete
    ensures var o1 := Run(fmt1, s, p);
            var o2 := Run(fmt2, s, o1.next);
            Run(fmt1 + fmt2, s, p) == Outcome(o1.values + o2.values, o2.stop, o2.next)
    decreases |fmt1|
  {
    if fmt1 == [] {
      assert fmt1 + fmt2 == fmt2;
    } else {
      var q, pre := RunAppendStep(fmt1, fmt2, s, p);
      RunAppend(fmt1[1..], fmt2, s, q);
      var o1 := Run(fmt1[1..], s, q);
      AppendAssoc(pre, o1.values, Run(fmt2, s, o1.next).values);
    }
  }

  lemma AppendAssoc(a: seq<int>, b: seq<int>, c: seq<int>)
    ensures a + (b + c) == (a + b) + c
  {
  }

  /**
   * The first directive of a complete run of fmt1 does the same whether fmt2
   * follows or not: it converts pre and leaves the rest of the run at q.
   */
  lemma RunAppendStep(fmt1: seq<Directive>, fmt2: seq<Directive>, s: seq<char>, p: nat) returns (q: nat, pre: seq<int>)
    requires p <= |s| && fmt1 != [] && Run(fmt1, s, p).stop == Complete
    ensures q <= |s|
    ensures var o := Run(fmt1[1..], s, q);
      Run(fmt1, s, p) == Outcome(pre + o.values, o.stop, o.next)
    ensures var o := Run(fmt1[1..] + fmt2, s, q);
      Run(fmt1 + fmt2, s, p) == Outcome(pre + o.values, o.stop, o.next)
  {
    var f := fmt1 + fmt2;
    assert f[0] == fmt1[0] && f[1..] == fmt1[1..] + fmt2;
    match fmt1[0]
    case Space =>
      q, pre := SkipSpace(s, p), [];
    case Lit(c) =>
      q, pre := p + 1, [];
    case Int =>
      match ScanInt(s, p)
      case Converted(v, next) =>
        q, pre := next, [v];
  }

  /** Two complete runs, one after the other, make one complete run of the two formats. */
  lemma RunThen(f1: seq<Directive>, f2: seq<Directive>, s: seq<char>, p: nat,
                v1: seq<int>, m: nat, v2: seq<int>, e: nat)
    requires p <= |s|
    requires Run(f1, s, p) == Outcome(v1, Complete, m)
    requires Run(f2, s, m) == Outcome(v2, Complete, e)
    ensures Run(f1 + f2, s, p) == Outcome(v1 + v2, Complete, e)
  {
    RunAppend(f1, f2, s, p);
  }

  /**
   * A format that starts with %d returns EOF exactly when the buffer is all
   * white space, 0 exactly when its first conversion meets a character that
   * cannot start an integer, and at least 1 otherwise: the first conversion
   * alone decides which.
   */
  lemma FirstConversionDecides(fmt: seq<Directive>, s: seq<char>)
    requires fmt != [] && fmt[0] == Int
    ensures Returned(Sscanf(fmt, s)) == -1 <==> AllSpaces(s)
    ensures Returned(Sscanf(fmt, s)) == 0 <==> ScanInt(s, 0) == NotConverted(MatchingFailure)
    ensures Returned(Sscanf(fmt, s)) >= 1 <==> ScanInt(s, 0).Converted?
  {
    var q := SkipSpace(s, 0);
    if AllSpaces(s) {
      assert q == |s|;
    }
    if q == |s| {
      assert forall j :: 0 <= j < |s| ==> IsSpace(s[j]);
    }
  }

  /** Position of the first occurrence of pat in s at or after from, or -1. */
  predicate OccursAt(s: seq<char>, pat: seq<char>, i: int) {
    0 <= i && i + |pat| <= |s| && s[i..i + |pat|] == pat
  }

  function FindFrom(s: seq<char>, pat: seq<char>, from: nat): (r: int)
    requires from <= |s|
    ensures r == -1 || from <= r
    ensures r >= 0 ==> OccursAt(s, pat, r)
    ensures forall i :: from <= i && (r < 0 || i < r) ==> !OccursAt(s, pat, i)
    decreases |s| - from
  {
    if from + |pat| > |s| then -1
    else if s[from..from + |pat|] == pat then from
    else FindFrom(s, pat, from + 1)
  }

  /** strstr(s, pat): the index of the first occurrence, -1 for NULL. */
  function Strstr(s: seq<char>, pat: seq<char>): (r: int)
    ensures r >= 0 <==> exists i :: OccursAt(s, pat, i)
    ensures r >= 0 ==> OccursAt(s, pat, r) && forall i :: 0 <= i < r ==> !OccursAt(s, pat, i)
  {
    FindFrom(s, pat, 0)
  }

  // ----- A canonical printer for non-negative integer records -----

  function DigitChar(d: nat): (c: char)
    requires d < 10
    ensures IsDigit(c)
  {
    ('0' as int + d) as char
  }

  /** The decimal spelling of n, without sign or leading zeros. */
  function Show(n: nat): (r: seq<char>)
    ensures |r| >= 1 && AllDigits(r)
    decreases n
  {
    if n < 10 then [DigitChar(n)] else Show(n / 10) + [DigitChar(n % 10)]
  }

  lemma {:induction false} ShowValue(n: nat)
    ensures DigitsValue(Show(n)) == n
    decreases n
  {
    if n >= 10 {
      var r := Show(n);
      assert r[..|r| - 1] == Show(n / 10);
      ShowValue(n / 10);
    }
  }

  /**
   * Formats without two adjacent %d and whose ordinary characters are
   * neither digits nor white space: those whose printed records can be read
   * back unambiguously.
   */
  predicate Separated(fmt: seq<Directive>) {
    if fmt == [] then true
    else
      (fmt[0].Lit? ==> !IsDigit(fmt[0].c) && !IsSpace(fmt[0].c)) &&
      (fmt[0] == Int && |fmt| > 1 ==> fmt[1] != Int) &&
      Separated(fmt[1..])
  }

  /** Prints vals as fmt describes them: one space per white-space directive. */
  function Print(fmt: seq<Directive>, vals: seq<nat>): seq<char>
    requires |vals| == Conversions(fmt)
  {
    if fmt == [] then []
    else
      match fmt[0]
      case Space => " " + Print(fmt[1..], vals)
      case Lit(c) => [c] + Print(fmt[1..], vals)
      case Int => Show(vals[0]) + Print(fmt[1..], vals[1..])
  }

  /** A %d at p reads back a printed number that follows some white space. */
  lemma ScanShown(s: seq<char>, p: nat, k: nat, n: nat)
    requires p + k + |Show(n)| <= |s|
    requires AllSpaces(s[p..p + k])
    requires s[p + k..p + k + |Show(n)|] == Show(n)
    requires p + k + |Show(n)| == |s| || !IsDigit(s[p + k + |Show(n)|])
    ensures ScanInt(s, p) == Converted(n, p + k + |Show(n)|)
  {
    var d := p + k;
    var e := d + |Show(n)|;
    assert s[d] == Show(n)[0];
    assert forall j :: p <= j < d ==> IsSpace(s[j]) by {
      forall j | p <= j < d ensures IsSpace(s[j]) {
        assert s[j] == s[p..p + k][j - p];
      }
    }
    SkipSpaceAt(s, p, d);
    assert forall j :: d <= j < e ==> IsDigit(s[j]) by {
      forall j | d <= j < e ensures IsDigit(s[j]) {
        assert s[j] == Show(n)[j - d];
      }
    }
    DigitEndAt(s, d, e);
    ShowValue(n);
  }

  /** SkipSpace stops at the first character that is not white space. */
  lemma {:induction false} SkipSpaceAt(s: seq<char>, p: nat, d: nat)
    requires p <= d <= |s|
    requires forall j :: p <= j < d ==> IsSpace(s[j])
    requires d == |s| || !IsSpace(s[d])
    ensures SkipSpace(s, p) == d
    decreases d - p
  {
    if p < d {
      SkipSpaceAt(s, p + 1, d);
    }
  }

  /** DigitEnd stops at the first character that is not a digit. */
  lemma {:induction false} DigitEndAt(s: seq<char>, p: nat, e: nat)
    requires p <= e <= |s|
    requires forall j :: p <= j < e ==> IsDigit(s[j])
    requires e == |s| || !IsDigit(s[e])
    ensures DigitEnd(s, p) == e
    decreases e - p
  {
    if p < e {
      DigitEndAt(s, p + 1, e);
    }
  }

  /** Leading white space makes no difference to a format that does not start with an ordinary character. */
  lemma RunSkipsSpaces(fmt: seq<Directive>, s: seq<char>, p: nat, q: nat)
    requires p <= q <= |s| && AllSpaces(s[p..q])
    requires fmt != [] && !fmt[0].Lit?
    ensures Run(fmt, s, p) == Run(fmt, s, q)
  {
    SkipSpaceOver(s, p, q);
    match fmt[0]
    case Space =>
    case Int =>
      assert ScanInt(s, p) == ScanInt(s, q);
  }

  /** A format that does not start with an ordinary character reads past one leading space. */
  lemma RunAfterSpace(fmt: seq<Directive>, s: seq<char>)
    requires |s| > 0 && s[0] == ' '
    requires fmt != [] && !fmt[0].Lit?
    ensures Run(fmt, s, 0) == Run(fmt, s, 1)
  {
    assert forall j :: 0 <= j < 1 ==> s[0..1][j] == ' ';
    RunSkipsSpaces(fmt, s, 0, 1);
  }

  /** Skipping white space from p or from a later point inside the same run of white space ends at the same place. */
  lemma SkipSpaceOver(s: seq<char>, p: nat, q: nat)
    requires p <= q <= |s| && AllSpaces(s[p..q])
    ensures SkipSpace(s, p) == SkipSpace(s, q)
  {
    assert forall j :: p <= j < q ==> IsSpace(s[j]) by {
      forall j | p <= j < q ensures IsSpace(s[j]) {
        assert s[j] == s[p..q][j - p];
      }
    }
  }

  /** Scanning a printed record gives back its values, with a complete match. */
  lemma {:induction false} ScanPrinted(fmt: seq<Directive>, vals: seq<nat>, s: seq<char>, p: nat, tail: seq<char>)
    requires Separated(fmt) && |vals| == Conversions(fmt)
    requires p <= |s|
    requires s[p..] == Print(fmt, vals) + tail
    requires tail == [] || !IsDigit(tail[0])
    ensures Run(fmt, s, p).values == vals && Run(fmt, s, p).stop == Complete
    ensures fmt == [] || fmt[|fmt| - 1] != Space ==> Run(fmt, s, p).next == p + |Print(fmt, vals)|
    decreases |fmt|
  {
    if fmt == [] {
      assert vals == [];
    } else {
      match fmt[0]
      case Space =>
        ScanPrintedSpace(fmt, vals, s, p, tail);
        ScanPrinted(fmt[1..], vals, s, p + 1, tail);
      case Lit(c) =>
        ScanPrintedLit(fmt, vals, s, p, tail);
        ScanPrinted(fmt[1..], vals, s, p + 1, tail);
      case Int =>
        assert |fmt| > 1 ==> Separated(fmt[1..]) && fmt[1] != Int;
        var e := ScanPrintedInt(fmt, vals, s, p, tail);
        ScanPrinted(fmt[1..], vals[1..], s, e, tail);
    }
  }

  /** A printed white-space directive: one space, then the rest of the record. */
  lemma ScanPrintedSpace(fmt: seq<Directive>, vals: seq<nat>, s: seq<char>, p: nat, tail: seq<char>)
    requires Separated(fmt) && |vals| == Conversions(fmt)
    requires fmt != [] && fmt[0] == Space
    requires p <= |s|
    requires s[p..] == Print(fmt, vals) + tail
    ensures p < |s| && s[p + 1..] == Print(fmt[1..], vals) + tail
    ensures Run(fmt, s, p).values == Run(fmt[1..], s, p + 1).values
    ensures Run(fmt, s, p).stop == Run(fmt[1..], s, p + 1).stop
    ensures fmt[1..] != [] ==> Run(fmt, s, p) == Run(fmt[1..], s, p + 1)
  {
    var rest := Print(fmt[1..], vals);
    assert s[p..] == " " + (rest + tail);
    SuffixSplit(s, p, " ", rest + tail);
    assert s[p] == s[p..p + 1][0];
    var q := SkipSpace(s, p);
    assert Run(fmt, s, p) == Run(fmt[1..], s, q);
    if fmt[1..] != [] {
      if fmt[1].Lit? {
        assert s[p + 1] == rest[0];
      } else {
        assert AllSpaces(s[p + 1..q]) by {
          forall j | p + 1 <= j < q ensures IsSpace(s[j]) { }
        }
        RunSkipsSpaces(fmt[1..], s, p + 1, q);
      }
    }
  }

  /** A printed ordinary character. */
  lemma ScanPrintedLit(fmt: seq<Directive>, vals: seq<nat>, s: seq<char>, p: nat, tail: seq<char>)
    requires |vals| == Conversions(fmt)
    requires fmt != [] && fmt[0].Lit?
    requires p <= |s|
    requires s[p..] == Print(fmt, vals) + tail
    ensures p < |s| && s[p + 1..] == Print(fmt[1..], vals) + tail
    ensures Run(fmt, s, p) == Run(fmt[1..], s, p + 1)
  {
    var rest := Print(fmt[1..], vals);
    assert s[p..] == [fmt[0].c] + (rest + tail);
    SuffixSplit(s, p, [fmt[0].c], rest + tail);
    assert s[p] == s[p..p + 1][0];
  }

  /** A printed number, read back by %d. */
  lemma ScanPrintedInt(fmt: seq<Directive>, vals: seq<nat>, s: seq<char>, p: nat, tail: seq<char>) returns (e: nat)
    requires |vals| == Conversions(fmt)
    requires fmt != [] && fmt[0] == Int
    requires |fmt| > 1 ==> fmt[1] != Int && (fmt[1].Lit? ==> !IsDigit(fmt[1].c))
    requires p <= |s|
    requires s[p..] == Print(fmt, vals) + tail
    requires tail == [] || !IsDigit(tail[0])
    ensures e <= |s| && s[e..] == Print(fmt[1..], vals[1..]) + tail
    ensures Run(fmt, s, p) == Outcome([vals[0]] + Run(fmt[1..], s, e).values, Run(fmt[1..], s, e).stop, Run(fmt[1..], s, e).next)
  {
    PrintedNumber(fmt, vals, tail);
    e := ScanNumberThen(fmt, s, p, vals[0], Print(fmt[1..], vals[1..]) + tail);
  }

  /** A %d directive facing a shown number and then a non-digit: it converts the number and the run goes on after it. */
  lemma ScanNumberThen(fmt: seq<Directive>, s: seq<char>, p: nat, n: nat, after: seq<char>) returns (e: nat)
    requires fmt != [] && fmt[0] == Int
    requires p <= |s| && s[p..] == Show(n) + after
    requires after == [] || !IsDigit(after[0])
    ensures e <= |s| && s[e..] == after
    ensures Run(fmt, s, p) == Outcome([n] + Run(fmt[1..], s, e).values, Run(fmt[1..], s, e).stop, Run(fmt[1..], s, e).next)
  {
    e := p + |Show(n)|;
    SuffixSplit(s, p, Show(n), after);
    ScanShownAt(s, p, n, after);
    RunConverted(fmt, s, p, n, e);
  }

  /** A printed record that starts with a number: the number, then something that is not a digit. */
  lemma PrintedNumber(fmt: seq<Directive>, vals: seq<nat>, tail: seq<char>)
    requires |vals| == Conversions(fmt)
    requires fmt != [] && fmt[0] == Int
    requires |fmt| > 1 ==> fmt[1] != Int && (fmt[1].Lit? ==> !IsDigit(fmt[1].c))
    requires tail == [] || !IsDigit(tail[0])
    ensures var after := Print(fmt[1..], vals[1..]) + tail;
      && Print(fmt, vals) + tail == Show(vals[0]) + after
      && (after == [] || !IsDigit(after[0]))
  {
    var rest := Print(fmt[1..], vals[1..]);
    if fmt[1..] == [] {
      assert rest == [];
      assert rest + tail == tail;
    } else {
      PrintHead(fmt[1..], vals[1..]);
      assert (rest + tail)[0] == rest[0];
    }
  }

  /** A %d on a printed number that no digit follows. */
  lemma ScanShownAt(s: seq<char>, p: nat, n: nat, after: seq<char>)
    requires p <= |s| && s[p..] == Show(n) + after
    requires after == [] || !IsDigit(after[0])
    ensures ScanInt(s, p) == Converted(n, p + |Show(n)|)
  {
    SuffixSplit(s, p, Show(n), after);
    var e := p + |Show(n)|;
    if e < |s| {
      assert s[e] == after[0];
    }
    assert AllSpaces(s[p..p]);
    ScanShown(s, p, 0, n);
  }

  /** A format that starts with %d, where the %d converts. */
  lemma RunConverted(fmt: seq<Directive>, s: seq<char>, p: nat, v: int, next: nat)
    requires p <= |s| && fmt != [] && fmt[0] == Int
    requires ScanInt(s, p) == Converted(v, next)
    ensures var r := Run(fmt[1..], s, next);
      Run(fmt, s, p) == Outcome([v] + r.values, r.stop, r.next)
  {
  }

  /** After a %d, a separated format prints no digit first. */
  lemma PrintHead(fmt: seq<Directive>, vals: seq<nat>)
    requires |vals| == Conversions(fmt)
    requires fmt != [] && fmt[0] != Int
    requires fmt[0].Lit? ==> !IsDigit(fmt[0].c)
    ensures |Print(fmt, vals)| > 0 && !IsDigit(Print(fmt, vals)[0])
  {
  }

  /** The suffix of s from p, known to be a + b, splits into a and then b. */
  lemma SuffixSplit(s: seq<char>, p: nat, a: seq<char>, b: seq<char>)
    requires p <= |s| && s[p..] == a + b
    ensures p + |a| <= |s| && s[p..p + |a|] == a && s[p + |a|..] == b
  {
    assert s[p..p + |a|] == s[p..][..|a|] == (a + b)[..|a|] == a;
    assert s[p + |a|..] == s[p..][|a|..] == (a + b)[|a|..] == b;
  }

  /** Printing an ordinary character in front of a format. */
  lemma PrintLit(c: char, fmt: seq<Directive>, vals: seq<nat>)
    requires |vals| == Conversions(fmt)
    ensures Conversions([Lit(c)] + fmt) == Conversions(fmt)
    ensures Print([Lit(c)] + fmt, vals) == [c] + Print(fmt, vals)
  {
    assert ([Lit(c)] + fmt)[1..] == fmt;
  }

  /** Printing a number in front of a format. */
  lemma PrintInt(n: nat, fmt: seq<Directive>, vals: seq<nat>)
    requires |vals| == Conversions(fmt)
    ensures Conversions([Int] + fmt) == Conversions(fmt) + 1
    ensures Print([Int] + fmt, [n] + vals) == Show(n) + Print(fmt, vals)
  {
    assert ([Int] + fmt)[1..] == fmt;
    assert ([n] + vals)[1..] == vals;
  }
}
