// Line records of an OBJ file as both passes of the loader see them: the
// character read with `>>` (which skips white space, blank lines included)
// and the rest of that physical line as getline leaves it in the buffer.
module Records {

  datatype Record = Record(ch: char, rest: seq<char>)

  /** buf[0] after getline: the first character of the rest of the line, or the terminating NUL when it is empty. */
  function FirstChar(buf: seq<char>): (c: char)
    ensures |buf| > 0 ==> c == buf[0]
    ensures |buf| == 0 ==> c == '\0'
  {
    if |buf| == 0 then '\0' else buf[0]
  }

  /** The branch of the loader's two nested switches that a record takes. */
  datatype Kind =
    | Comment      // '#'
    | Vertex       // 'v' then ' '
    | Normal       // 'v' then 'n'
    | TexCoord     // 'v' then 't', ignored
    | UnknownV     // 'v' then anything else: diagnosed, ignored
    | Directive    // 'm', 'u', 'g': material library, use material, group, ignored
    | Face         // 'f' then ' '
    | SkippedFace  // 'f' then anything else, ignored
    | Other        // any other leading character, ignored

  function Classify(r: Record): (k: Kind)
    ensures k == Vertex <==> r.ch == 'v' && FirstChar(r.rest) == ' '
    ensures k == Normal <==> r.ch == 'v' && FirstChar(r.rest) == 'n'
    ensures k == Face <==> r.ch == 'f' && FirstChar(r.rest) == ' '
  {
    match r.ch
    case '#' => Comment
    case 'v' =>
      (match FirstChar(r.rest)
       case ' ' => Vertex
       case 'n' => Normal
       case 't' => TexCoord
       case _ => UnknownV)
    case 'm' => Directive
    case 'u' => Directive
    case 'g' => Directive
    case 'f' => if FirstChar(r.rest) == ' ' then Face else SkippedFace
    case _ => Other
  }

  /** Number of records of kind k. */
  function CountKind(rs: seq<Record>, k: Kind): (n: nat)
    ensures n <= |rs|
    decreases |rs|
  {
    if rs == [] then 0
    else CountKind(rs[..|rs| - 1], k) + (if Classify(rs[|rs| - 1]) == k then 1 else 0)
  }

  /** Counting is additive over consecutive runs of records. */
  lemma {:induction false} CountAppend(a: seq<Record>, b: seq<Record>, k: Kind)
    ensures CountKind(a + b, k) == CountKind(a, k) + CountKind(b, k)
    decreases |b|
  {
    if b == [] {
      assert a + b == a;
    } else {
      var ab := a + b;
      assert ab[..|ab| - 1] == a + b[..|b| - 1];
      CountAppend(a, b[..|b| - 1], k);
    }
  }

  /** A prefix never holds more records of a kind than the whole. */
  lemma CountPrefix(rs: seq<Record>, i: nat, k: Kind)
    requires i <= |rs|
    ensures CountKind(rs[..i], k) <= CountKind(rs, k)
    ensures i < |rs| ==> CountKind(rs[..i + 1], k) == CountKind(rs[..i], k) + (if Classify(rs[i]) == k then 1 else 0)
  {
    CountAppend(rs[..i], rs[i..], k);
    assert rs[..i] + rs[i..] == rs;
    if i < |rs| {
      assert rs[..i + 1][..i] == rs[..i];
    }
  }

  /** The positions that hold records of kind k. */
  ghost function Positions(rs: seq<Record>, k: Kind): set<int> {
    set i | 0 <= i < |rs| && Classify(rs[i]) == k
  }

  /** CountKind agrees with the size of the set of positions holding such records. */
  lemma {:induction false} CountIsCardinality(rs: seq<Record>, k: Kind)
    ensures CountKind(rs, k) == |Positions(rs, k)|
    decreases |rs|
  {
    if rs == [] {
      assert Positions(rs, k) == {};
    } else {
      CountIsCardinality(rs[..|rs| - 1], k);
      PositionsSnoc(rs, k);
    }
  }

  /** The positions of a non-empty run: those of all but the last record, and the last one if it is of kind k. */
  lemma PositionsSnoc(rs: seq<Record>, k: Kind)
    requires rs != []
    ensures var front := rs[..|rs| - 1];
      var last: set<int> := if Classify(rs[|rs| - 1]) == k then {|rs| - 1} else {};
      Positions(rs, k) == Positions(front, k) + last && |rs| - 1 !in Positions(front, k)
  {
    var front := rs[..|rs| - 1];
    var last: set<int> := if Classify(rs[|rs| - 1]) == k then {|rs| - 1} else {};
    forall i ensures i in Positions(rs, k) <==> i in Positions(front, k) + last {
      if 0 <= i < |rs| - 1 {
        assert rs[i] == front[i];
      }
    }
  }

  /** A record of kind k at position i: fewer such records come before it than in the whole run. */
  lemma CountBefore(rs: seq<Record>, i: nat, k: Kind)
    requires i < |rs| && Classify(rs[i]) == k
    ensures CountKind(rs[..i], k) < CountKind(rs, k)
  {
    CountPrefix(rs, i, k);
    CountPrefix(rs, i + 1, k);
  }

  /** Every record falls in exactly one branch: the nine counts add up to the number of records. */
  lemma {:induction false} CountsPartition(rs: seq<Record>)
    ensures CountKind(rs, Comment) + CountKind(rs, Vertex) + CountKind(rs, Normal)
          + CountKind(rs, TexCoord) + CountKind(rs, UnknownV) + CountKind(rs, Directive)
          + CountKind(rs, Face) + CountKind(rs, SkippedFace) + CountKind(rs, Other) == |rs|
    decreases |rs|
  {
    if rs != [] {
      CountsPartition(rs[..|rs| - 1]);
    }
  }

  /**
   * When the input ends with a newline, both loops run once more: the final
   * `>>` fails and leaves ch as it was, and getline stores an empty buffer.
   * That record is never a vertex, a normal or a face.
   */
  lemma StaleFinalRecordIgnored(ch: char)
    ensures Classify(Record(ch, [])) != Vertex
    ensures Classify(Record(ch, [])) != Normal
    ensures Classify(Record(ch, [])) != Face
  {
  }
}
