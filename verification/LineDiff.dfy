/**
 * The string differ of the relay's line deltas: a line as copies of an earlier line and inserted text.
 * Each loop of the source is a method here, proved equal to the function above it.
 */
module LineDiff {
  import opened Utf8

  /** The shortest run the differ names as a copy once it is past the start of the line. */
  const ANCHOR: nat := 16
  const SKIP_WINDOW: nat := 256
  const MAX_OPS: nat := 64

  datatype DeltaOp = Copy(start: nat, length: nat) | Insert(text: Text)

  datatype Hit = NoHit | Hit(at: nat, from: nat)

  // Applying operations

  /** `text.slice(start, end)`: both ends clamp to the text. */
  function Slice(text: Text, start: nat, end: nat): (slice: Text)
    ensures start <= end <= |text| ==> slice == text[start..end]
    ensures end <= start || |text| <= start ==> slice == []
    ensures start <= |text| < end ==> slice == text[start..]
  {
    var lo := if start < |text| then start else |text|;
    var hi := if end < lo then lo else if end < |text| then end else |text|;
    text[lo..hi]
  }

  function OpText(base: Text, op: DeltaOp): Text {
    match op
    case Insert(text) => text
    case Copy(start, length) => Slice(base, start, start + length)
  }

  function Rebuilt(base: Text, ops: seq<DeltaOp>): Text {
    if ops == [] then [] else Rebuilt(base, ops[..|ops| - 1]) + OpText(base, ops[|ops| - 1])
  }

  method ApplyOps(base: Text, ops: seq<DeltaOp>) returns (line: Text)
    ensures line == Rebuilt(base, ops)
  {
    line := [];
    for i := 0 to |ops|
      invariant line == Rebuilt(base, ops[..i])
    {
      assert ops[..i + 1][..i] == ops[..i];
      line := line + OpText(base, ops[i]);
    }
    assert ops[..|ops|] == ops;
  }

  lemma RebuiltSnoc(base: Text, ops: seq<DeltaOp>, op: DeltaOp)
    ensures Rebuilt(base, ops + [op]) == Rebuilt(base, ops) + OpText(base, op)
  {
    assert (ops + [op])[..|ops|] == ops;
  }

  // Runs and anchors

  /** A base line and a line, each with the place where their common ending starts. */
  datatype Parts = Parts(base: Text, baseEnd: nat, line: Text, lineEnd: nat) {
    predicate Has(from: nat, at: nat) {
      from <= baseEnd <= |base| && at <= lineEnd <= |line|
    }

    /** `length` units agree from the two places on. */
    ghost predicate Agree(from: nat, at: nat, length: nat) {
      Has(from + length, at + length) && forall i :: from <= i < from + length ==> base[i] == line[at + (i - from)]
    }

    ghost predicate IsAnchor(from: nat, at: nat) {
      Agree(from, at, ANCHOR)
    }
  }

  function RunLength(p: Parts, from: nat, at: nat): (n: nat)
    requires p.Has(from, at)
    ensures p.Has(from + n, at + n)
    decreases p.baseEnd - from
  {
    if from < p.baseEnd && at < p.lineEnd && p.base[from] == p.line[at] then 1 + RunLength(p, from + 1, at + 1) else 0
  }

  /** A run agrees and cannot be longer. */
  lemma {:induction false} RunIsMaximal(p: Parts, from: nat, at: nat)
    requires p.Has(from, at)
    ensures var n := RunLength(p, from, at);
            && p.Agree(from, at, n)
            && (from + n == p.baseEnd || at + n == p.lineEnd || p.base[from + n] != p.line[at + n])
    decreases p.baseEnd - from
  {
    var n := RunLength(p, from, at);
    if n > 0 {
      RunIsMaximal(p, from + 1, at + 1);
    }
  }

  lemma {:induction false} AgreementRuns(p: Parts, from: nat, at: nat, length: nat)
    requires p.Agree(from, at, length)
    ensures RunLength(p, from, at) >= length
    decreases length
  {
    if length > 0 {
      assert p.base[from] == p.line[at + (from - from)];
      AgreementRuns(p, from + 1, at + 1, length - 1);
    }
  }

  method SameRun(base: Text, from: nat, baseEnd: nat, line: Text, at: nat, lineEnd: nat) returns (length: nat)
    requires Parts(base, baseEnd, line, lineEnd).Has(from, at)
    ensures length == RunLength(Parts(base, baseEnd, line, lineEnd), from, at)
  {
    ghost var p := Parts(base, baseEnd, line, lineEnd);
    length := 0;
    while from + length < baseEnd && at + length < lineEnd && base[from + length] == line[at + length]
      invariant p.Has(from + length, at + length)
      invariant RunLength(p, from, at) == length + RunLength(p, from + length, at + length)
    {
      length := length + 1;
    }
  }

  predicate OccursAt(hay: Text, needle: Text, place: nat) {
    place + |needle| <= |hay| && hay[place..place + |needle|] == needle
  }

  /** `hay.indexOf(needle, from)`: the first occurrence at or after `from`, or -1. */
  function IndexOf(hay: Text, needle: Text, from: nat): (found: int)
    ensures found == -1 || (from <= found && OccursAt(hay, needle, found))
    ensures forall k: nat :: from <= k && OccursAt(hay, needle, k) ==> 0 <= found <= k
    decreases |hay| - from
  {
    if from + |needle| > |hay| then -1
    else if OccursAt(hay, needle, from) then from
    else IndexOf(hay, needle, from + 1)
  }

  /** The places `skip`, `skip + 4`, ... in the line, tried against the base from `from` on. */
  function SkipFrom(p: Parts, from: nat, at: nat, skip: nat): Hit
    requires p.Has(from, at)
    decreases SKIP_WINDOW + 4 - skip
  {
    if skip > SKIP_WINDOW || at + skip + ANCHOR > p.lineEnd then NoHit
    else
      var found := IndexOf(p.base, p.line[at + skip..at + skip + ANCHOR], from);
      if found >= 0 && found + ANCHOR <= p.baseEnd then Hit(at + skip, found) else SkipFrom(p, from, at, skip + 4)
  }

  function BaseAnchor(p: Parts, from: nat, at: nat): Hit
    requires p.Has(from, at)
  {
    if from + ANCHOR > p.baseEnd then NoHit
    else
      var found := IndexOf(p.line, p.base[from..from + ANCHOR], at);
      if found >= 0 && found + ANCHOR <= p.lineEnd then Hit(found, from) else NoHit
  }

  function NextAnchor(p: Parts, from: nat, at: nat): Hit
    requires p.Has(from, at)
  {
    var hit := BaseAnchor(p, from, at);
    if hit.Hit? then hit else SkipFrom(p, from, at, 0)
  }

  method Resync(base: Text, from: nat, baseEnd: nat, line: Text, at: nat, lineEnd: nat) returns (hit: Hit)
    requires Parts(base, baseEnd, line, lineEnd).Has(from, at)
    ensures hit == NextAnchor(Parts(base, baseEnd, line, lineEnd), from, at)
  {
    hide IndexOf, OccursAt;
    ghost var p := Parts(base, baseEnd, line, lineEnd);
    if from + ANCHOR <= baseEnd {
      var found := IndexOf(line, base[from..from + ANCHOR], at);
      if found >= 0 && found + ANCHOR <= lineEnd {
        return Hit(found, from);
      }
    }
    var skip := 0;
    while skip <= SKIP_WINDOW && at + skip + ANCHOR <= lineEnd
      invariant SkipFrom(p, from, at, skip) == SkipFrom(p, from, at, 0)
      decreases SKIP_WINDOW + 4 - skip
    {
      var found := IndexOf(base, line[at + skip..at + skip + ANCHOR], from);
      if found >= 0 && found + ANCHOR <= baseEnd {
        return Hit(at + skip, found);
      }
      skip := skip + 4;
    }
    return NoHit;
  }

  lemma OccurrenceIsAnchor(p: Parts, from: nat, at: nat)
    requires p.Has(from + ANCHOR, at + ANCHOR)
    ensures p.IsAnchor(from, at) <==> OccursAt(p.base, p.line[at..at + ANCHOR], from)
    ensures p.IsAnchor(from, at) <==> OccursAt(p.line, p.base[from..from + ANCHOR], at)
  {
    var b, l := p.base[from..from + ANCHOR], p.line[at..at + ANCHOR];
    if p.IsAnchor(from, at) {
      assert b == l;
    } else if b == l {
      forall i | from <= i < from + ANCHOR ensures p.base[i] == p.line[at + (i - from)] {
        assert b[i - from] == l[i - from];
      }
    }
  }

  /** The line's text `skip` past `at` is nowhere in the base from `from` on. */
  ghost predicate Unanchored(p: Parts, from: nat, at: nat, skip: nat) {
    forall f: nat :: from <= f ==> !AnchorAfter(p, f, at, skip)
  }

  ghost predicate AnchorAfter(p: Parts, from: nat, at: nat, skip: nat) {
    p.IsAnchor(from, at + skip)
  }

  /** No base text before the first occurrence found is an anchor, and with none found none is. */
  lemma NoAnchorBefore(p: Parts, from: nat, a: nat, g: nat)
    requires p.Has(from, a + ANCHOR) && from <= g
    requires var found := IndexOf(p.base, p.line[a..a + ANCHOR], from);
             found < 0 || p.baseEnd < found + ANCHOR || g < found
    ensures !p.IsAnchor(g, a)
  {
    if p.Has(g + ANCHOR, a + ANCHOR) {
      OccurrenceIsAnchor(p, g, a);
    }
  }

  lemma NothingFound(p: Parts, from: nat, at: nat, skip: nat)
    requires p.Has(from, at + skip + ANCHOR)
    requires var found := IndexOf(p.base, p.line[at + skip..at + skip + ANCHOR], from);
             found < 0 || p.baseEnd < found + ANCHOR
    ensures Unanchored(p, from, at, skip)
  {
    forall f: nat | from <= f ensures !AnchorAfter(p, f, at, skip) {
      NoAnchorBefore(p, from, at + skip, f);
    }
  }

  lemma {:induction false} SkipFromSpec(p: Parts, from: nat, at: nat, skip: nat)
    requires p.Has(from, at) && skip % 4 == 0
    ensures match SkipFrom(p, from, at, skip)
            case Hit(a, f) => at <= a && from <= f && p.IsAnchor(f, a)
            case NoHit => forall s: nat ::
                            skip <= s <= SKIP_WINDOW && s % 4 == 0 ==> Unanchored(p, from, at, s)
    decreases SKIP_WINDOW + 4 - skip
  {
    hide IndexOf;
    if skip <= SKIP_WINDOW && at + skip + ANCHOR <= p.lineEnd {
      var found := IndexOf(p.base, p.line[at + skip..at + skip + ANCHOR], from);
      if found >= 0 && found + ANCHOR <= p.baseEnd {
        OccurrenceIsAnchor(p, found, at + skip);
      } else {
        NothingFound(p, from, at, skip);
        SkipFromSpec(p, from, at, skip + 4);
        assert forall s: nat :: skip <= s && s % 4 == 0 ==> s == skip || skip + 4 <= s;
      }
    }
  }

  lemma BaseAnchorSpec(p: Parts, from: nat, at: nat)
    requires p.Has(from, at)
    ensures match BaseAnchor(p, from, at)
            case Hit(a, f) => at <= a && from == f && p.IsAnchor(f, a)
            case NoHit => forall a: nat :: at <= a ==> !p.IsAnchor(from, a)
  {
    if from + ANCHOR <= p.baseEnd {
      var found := IndexOf(p.line, p.base[from..from + ANCHOR], at);
      if found >= 0 && found + ANCHOR <= p.lineEnd {
        OccurrenceIsAnchor(p, from, found);
      } else {
        forall a: nat | at <= a ensures !p.IsAnchor(from, a) {
          if p.Has(from + ANCHOR, a + ANCHOR) {
            OccurrenceIsAnchor(p, from, a);
          }
        }
      }
    }
  }

  /**
   * A hit is an anchor at or after both places; with no hit, neither the base text here nor a tried line text has one.
   */
  lemma NextAnchorSpec(p: Parts, from: nat, at: nat)
    requires p.Has(from, at)
    ensures match NextAnchor(p, from, at)
            case Hit(a, f) => at <= a && from <= f && p.IsAnchor(f, a)
            case NoHit =>
              && (forall a: nat :: at <= a ==> !p.IsAnchor(from, a))
              && (forall s: nat ::
                    s <= SKIP_WINDOW && s % 4 == 0 ==> Unanchored(p, from, at, s))
  {
    BaseAnchorSpec(p, from, at);
    SkipFromSpec(p, from, at, 0);
  }

  /** What makes the differ's loop end: the round after a hit copies at least an anchor. */
  lemma HitRuns(p: Parts, from: nat, at: nat)
    requires p.Has(from, at)
    ensures var hit := NextAnchor(p, from, at);
            hit.Hit? ==> at <= hit.at && p.Has(hit.from, hit.at) && RunLength(p, hit.from, hit.at) >= ANCHOR
  {
    NextAnchorSpec(p, from, at);
    var hit := NextAnchor(p, from, at);
    if hit.Hit? {
      AgreementRuns(p, hit.from, hit.at, ANCHOR);
    }
  }

  // The differ

  function CommonSuffix(base: Text, line: Text, suffix: nat): (n: nat)
    requires suffix <= |base| && suffix <= |line|
    ensures suffix <= n <= |base| && n <= |line|
    decreases |base| - suffix
  {
    if suffix < |base| && suffix < |line| && base[|base| - 1 - suffix] == line[|line| - 1 - suffix]
    then CommonSuffix(base, line, suffix + 1)
    else suffix
  }

  ghost predicate EndAlike(base: Text, line: Text, n: nat)
    requires n <= |base| && n <= |line|
  {
    forall i :: |base| - n <= i < |base| ==> base[i] == line[i - |base| + |line|]
  }

  /** `n` is the length of the longest ending of both. */
  ghost predicate LongestEnd(base: Text, line: Text, n: nat) {
    && n <= |base| && n <= |line| && EndAlike(base, line, n)
    && (n == |base| || n == |line| || base[|base| - 1 - n] != line[|line| - 1 - n])
  }

  lemma {:induction false} CommonSuffixAgrees(base: Text, line: Text, suffix: nat)
    requires suffix <= |base| && suffix <= |line| && EndAlike(base, line, suffix)
    ensures LongestEnd(base, line, CommonSuffix(base, line, suffix))
    decreases |base| - suffix
  {
    if suffix < |base| && suffix < |line| && base[|base| - 1 - suffix] == line[|line| - 1 - suffix] {
      CommonSuffixAgrees(base, line, suffix + 1);
    }
  }

  predicate TakesRun(run: nat, at: nat) {
    run >= ANCHOR || (run > 0 && at == 0)
  }

  /** The operations for the line from `at` against the base from `from`, after `ops`. */
  function MiddleOps(p: Parts, from: nat, at: nat, ops: seq<DeltaOp>): seq<DeltaOp>
    requires p.Has(from, at)
    decreases p.lineEnd - at, if RunLength(p, from, at) >= ANCHOR then 0 else 1
  {
    var run := RunLength(p, from, at);
    if at == p.lineEnd then ops
    else if TakesRun(run, at) then MiddleOps(p, from + run, at + run, ops + [Copy(from, run)])
    else
      var hit := if |ops| < MAX_OPS then NextAnchor(p, from, at) else NoHit;
      HitRuns(p, from, at);
      match hit
      case NoHit => ops + [Insert(p.line[at..p.lineEnd])]
      case Hit(a, f) => MiddleOps(p, f, a, WithText(ops, p.line, at, a))
  }

  function WithText(ops: seq<DeltaOp>, line: Text, at: nat, end: nat): seq<DeltaOp>
    requires at <= end <= |line|
  {
    if end > at then ops + [Insert(line[at..end])] else ops
  }

  function Middle(base: Text, line: Text): (p: Parts)
    ensures p.Has(0, 0)
  {
    var suffix := CommonSuffix(base, line, 0);
    Parts(base, |base| - suffix, line, |line| - suffix)
  }

  function Diff(base: Text, line: Text): seq<DeltaOp> {
    var p := Middle(base, line);
    var ops := MiddleOps(p, 0, 0, []);
    if p.baseEnd < |base| then ops + [Copy(p.baseEnd, |base| - p.baseEnd)] else ops
  }

  method SuffixLength(base: Text, line: Text) returns (suffix: nat)
    ensures suffix == CommonSuffix(base, line, 0)
  {
    suffix := 0;
    while suffix < |base| && suffix < |line| && base[|base| - 1 - suffix] == line[|line| - 1 - suffix]
      invariant suffix <= |base| && suffix <= |line|
      invariant CommonSuffix(base, line, suffix) == CommonSuffix(base, line, 0)
    {
      suffix := suffix + 1;
    }
  }

  method DiffLine(base: Text, line: Text) returns (ops: seq<DeltaOp>)
    ensures ops == Diff(base, line)
  {
    hide NextAnchor, RunLength, CommonSuffix;
    var suffix := SuffixLength(base, line);
    var baseEnd, lineEnd := |base| - suffix, |line| - suffix;
    ghost var p := Parts(base, baseEnd, line, lineEnd);
    ops := [];
    var at: nat, from: nat := 0, 0;
    while at < lineEnd
      invariant p.Has(from, at)
      invariant MiddleOps(p, from, at, ops) == MiddleOps(p, 0, 0, [])
      decreases lineEnd - at, if RunLength(p, from, at) >= ANCHOR then 0 else 1
    {
      var run := SameRun(base, from, baseEnd, line, at, lineEnd);
      if run >= ANCHOR || (run > 0 && at == 0) {
        ops, from, at := ops + [Copy(from, run)], from + run, at + run;
        continue;
      }
      var hit := NoHit;
      if |ops| < MAX_OPS {
        hit := Resync(base, from, baseEnd, line, at, lineEnd);
        HitRuns(p, from, at);
      }
      if hit.NoHit? {
        ops := ops + [Insert(line[at..lineEnd])];
        break;
      }
      if hit.at > at {
        ops := ops + [Insert(line[at..hit.at])];
      }
      at, from := hit.at, hit.from;
    }
    if suffix > 0 {
      ops := ops + [Copy(|base| - suffix, suffix)];
    }
  }

  // What a diff promises

  lemma RebuiltCopy(p: Parts, from: nat, at: nat, ops: seq<DeltaOp>, run: nat)
    requires p.Agree(from, at, run) && Rebuilt(p.base, ops) == p.line[..at]
    ensures Rebuilt(p.base, ops + [Copy(from, run)]) == p.line[..at + run]
  {
    hide Rebuilt;
    RebuiltSnoc(p.base, ops, Copy(from, run));
    SameText(p, from, at, run);
    TakeMore(p.line, at, at + run);
  }

  lemma SameText(p: Parts, from: nat, at: nat, run: nat)
    requires p.Agree(from, at, run)
    ensures p.base[from..from + run] == p.line[at..at + run]
  {
  }

  lemma TakeMore(text: Text, at: nat, end: nat)
    requires at <= end <= |text|
    ensures text[..at] + text[at..end] == text[..end]
  {
  }

  lemma RebuiltText(base: Text, line: Text, ops: seq<DeltaOp>, at: nat, end: nat)
    requires at <= end <= |line| && Rebuilt(base, ops) == line[..at]
    ensures Rebuilt(base, WithText(ops, line, at, end)) == line[..end]
  {
    RebuiltSnoc(base, ops, Insert(line[at..end]));
    TakeMore(line, at, end);
  }

  lemma {:induction false} MiddleRebuilds(p: Parts, from: nat, at: nat, ops: seq<DeltaOp>)
    requires p.Has(from, at) && Rebuilt(p.base, ops) == p.line[..at]
    ensures Rebuilt(p.base, MiddleOps(p, from, at, ops)) == p.line[..p.lineEnd]
    decreases p.lineEnd - at, if RunLength(p, from, at) >= ANCHOR then 0 else 1
  {
    hide NextAnchor, RunLength, Rebuilt;
    var run := RunLength(p, from, at);
    if at == p.lineEnd {
    } else if TakesRun(run, at) {
      RunIsMaximal(p, from, at);
      RebuiltCopy(p, from, at, ops, run);
      MiddleRebuilds(p, from + run, at + run, ops + [Copy(from, run)]);
    } else {
      var hit := if |ops| < MAX_OPS then NextAnchor(p, from, at) else NoHit;
      HitRuns(p, from, at);
      if hit.Hit? {
        RebuiltText(p.base, p.line, ops, at, hit.at);
        MiddleRebuilds(p, hit.from, hit.at, WithText(ops, p.line, at, hit.at));
      } else {
        RebuiltText(p.base, p.line, ops, at, p.lineEnd);
      }
    }
  }

  /** The operations of a diff rebuild the line from the base, for every pair of texts. */
  lemma DiffRebuilds(base: Text, line: Text)
    ensures Rebuilt(base, Diff(base, line)) == line
  {
    hide MiddleOps, RunLength, Rebuilt, CommonSuffix;
    var p := Middle(base, line);
    RebuiltNothing(base, line);
    MiddleRebuilds(p, 0, 0, []);
    SuffixAgrees(base, line);
    hide Middle;
    var suffix := |base| - p.baseEnd;
    WholeLine(line);
    if suffix > 0 {
      RebuiltCopy(Parts(base, |base|, line, |line|), p.baseEnd, p.lineEnd, MiddleOps(p, 0, 0, []), suffix);
    }
  }

  lemma RebuiltNothing(base: Text, line: Text)
    ensures Rebuilt(base, []) == line[..0]
  {
  }

  lemma WholeLine(line: Text)
    ensures line[..|line|] == line
  {
  }

  lemma SuffixAgrees(base: Text, line: Text)
    ensures var p := Middle(base, line);
            && p.base == base && p.line == line && p.baseEnd <= |base| && |line| - p.lineEnd == |base| - p.baseEnd
            && Parts(base, |base|, line, |line|).Agree(p.baseEnd, p.lineEnd, |base| - p.baseEnd)
  {
    CommonSuffixAgrees(base, line, 0);
  }

  /** After a maximal run nothing agrees, so a list past MAX_OPS gets the rest of the line as one insertion. */
  lemma {:induction false} MiddleOpsBound(p: Parts, from: nat, at: nat, ops: seq<DeltaOp>)
    requires p.Has(from, at)
    requires |ops| <= MAX_OPS || (|ops| == MAX_OPS + 1 && (at == p.lineEnd || RunLength(p, from, at) == 0))
    ensures |MiddleOps(p, from, at, ops)| <= MAX_OPS + 2
    decreases p.lineEnd - at, if RunLength(p, from, at) >= ANCHOR then 0 else 1
  {
    hide NextAnchor;
    var run := RunLength(p, from, at);
    if at == p.lineEnd {
    } else if TakesRun(run, at) {
      RunIsMaximal(p, from, at);
      MiddleOpsBound(p, from + run, at + run, ops + [Copy(from, run)]);
    } else {
      HitRuns(p, from, at);
      var hit := if |ops| < MAX_OPS then NextAnchor(p, from, at) else NoHit;
      if hit.Hit? {
        MiddleOpsBound(p, hit.from, hit.at, WithText(ops, p.line, at, hit.at));
      }
    }
  }

  lemma DiffIsBounded(base: Text, line: Text)
    ensures |Diff(base, line)| <= MAX_OPS + 3
  {
    MiddleOpsBound(Middle(base, line), 0, 0, []);
  }

  lemma {:induction false} CommonSuffixOfSame(text: Text, suffix: nat)
    requires suffix <= |text|
    ensures CommonSuffix(text, text, suffix) == |text|
    decreases |text| - suffix
  {
    if suffix < |text| {
      CommonSuffixOfSame(text, suffix + 1);
    }
  }

  /** A line sent again unchanged is one copy. */
  lemma DiffOfSame(text: Text)
    requires text != []
    ensures Diff(text, text) == [Copy(0, |text|)]
  {
    CommonSuffixOfSame(text, 0);
  }

  // Which operations a diff is

  /** Where the line stands after some operations. */
  function LineAt(ops: seq<DeltaOp>): nat {
    if ops == [] then 0
    else LineAt(ops[..|ops| - 1]) + match ops[|ops| - 1] case Insert(text) => |text| case Copy(_, length) => length
  }

  /** Where the base stands: after the last copy. */
  function BaseAt(ops: seq<DeltaOp>): nat {
    if ops == [] then 0
    else match ops[|ops| - 1] case Insert(_) => BaseAt(ops[..|ops| - 1]) case Copy(start, length) => start + length
  }

  predicate EndsWithText(ops: seq<DeltaOp>) {
    ops != [] && ops[|ops| - 1].Insert?
  }

  ghost predicate LongestAgreement(p: Parts, from: nat, at: nat, n: nat) {
    && p.Agree(from, at, n)
    && (from + n == p.baseEnd || at + n == p.lineEnd || p.base[from + n] != p.line[at + n])
  }

  /** No run is copied here: fewer than an anchor's units agree, and at the start of the line none. */
  ghost predicate NoCopyHere(p: Parts, from: nat, at: nat) {
    !p.IsAnchor(from, at) && (at == 0 ==> !p.Agree(from, at, 1))
  }

  /** None of the places tried from here on is an anchor. */
  ghost predicate NoAnchor(p: Parts, from: nat, at: nat) {
    && (forall a: nat :: at <= a ==> !p.IsAnchor(from, a))
    && (forall s: nat :: s <= SKIP_WINDOW && s % 4 == 0 ==> Unanchored(p, from, at, s))
  }

  /** The anchor to go on from: the base text here at its first place in the line, else the first line text tried. */
  ghost predicate NextIs(p: Parts, from: nat, at: nat, f: nat, a: nat) {
    && from <= f && at <= a && p.IsAnchor(f, a)
    && if f == from then forall x: nat :: at <= x < a ==> !p.IsAnchor(from, x)
       else
         && (forall x: nat :: at <= x ==> !p.IsAnchor(from, x))
         && a - at <= SKIP_WINDOW && (a - at) % 4 == 0
         && (forall s: nat :: s < a - at && s % 4 == 0 ==> Unanchored(p, from, at, s))
         && (forall g: nat :: from <= g < f ==> !p.IsAnchor(g, a))
  }

  /**
   * The last operation is the differ's choice after those before it. A copy is the longest there is; it goes on where
   * the base stands, or starts at the next anchor, after the text inserted before that. Text is inserted only where no
   * run is copied.
   */
  ghost predicate LastIsRight(p: Parts, ops: seq<DeltaOp>)
    requires ops != []
  {
    var before := ops[..|ops| - 1];
    var from, at := BaseAt(before), LineAt(before);
    match ops[|ops| - 1]
    case Insert(text) =>
      && !EndsWithText(before) && NoCopyHere(p, from, at)
      && text != [] && p.Has(from, at + |text|) && text == p.line[at..at + |text|]
    case Copy(start, length) =>
      var rest := if EndsWithText(before) then before[..|before| - 1] else before;
      && LongestAgreement(p, start, at, length)
      && ((rest == before && start == from && (length >= ANCHOR || (length > 0 && at == 0))) ||
          (|rest| < MAX_OPS && NoCopyHere(p, from, LineAt(rest)) && NextIs(p, from, LineAt(rest), start, at)))
  }

  ghost predicate AllRight(p: Parts, ops: seq<DeltaOp>) {
    ops == [] || (AllRight(p, ops[..|ops| - 1]) && LastIsRight(p, ops))
  }

  /** The operations cover the line, and text stands last only where the list is long or no place tried is an anchor. */
  ghost predicate Covers(p: Parts, ops: seq<DeltaOp>) {
    && LineAt(ops) == p.lineEnd
    && (EndsWithText(ops) ==>
          var before := ops[..|ops| - 1];
          |before| >= MAX_OPS || NoAnchor(p, BaseAt(before), LineAt(before)))
  }

  ghost predicate IsDiff(base: Text, line: Text, ops: seq<DeltaOp>) {
    exists suffix: nat, middle: seq<DeltaOp> :: IsDiffBy(base, line, ops, suffix, middle)
  }

  ghost predicate IsDiffBy(base: Text, line: Text, ops: seq<DeltaOp>, suffix: nat, middle: seq<DeltaOp>) {
    && LongestEnd(base, line, suffix)
    && var p := Parts(base, |base| - suffix, line, |line| - suffix);
       && AllRight(p, middle) && Covers(p, middle)
       && ops == if suffix > 0 then middle + [Copy(|base| - suffix, suffix)] else middle
  }

  lemma {:induction false} SkipFromIsFirst(p: Parts, from: nat, at: nat, skip: nat)
    requires p.Has(from, at) && skip % 4 == 0
    ensures match SkipFrom(p, from, at, skip)
            case NoHit => true
            case Hit(a, f) =>
              && at + skip <= a && a - at <= SKIP_WINDOW && (a - at) % 4 == 0
              && (forall s: nat :: skip <= s < a - at && s % 4 == 0 ==> Unanchored(p, from, at, s))
              && (forall g: nat :: from <= g < f ==> !p.IsAnchor(g, a))
    decreases SKIP_WINDOW + 4 - skip
  {
    hide IndexOf, Unanchored, Parts.IsAnchor;
    if skip <= SKIP_WINDOW && at + skip + ANCHOR <= p.lineEnd {
      var a := at + skip;
      var found := IndexOf(p.base, p.line[a..a + ANCHOR], from);
      if found >= 0 && found + ANCHOR <= p.baseEnd {
        forall g: nat | from <= g < found ensures !p.IsAnchor(g, a) {
          NoAnchorBefore(p, from, a, g);
        }
      } else {
        NothingFound(p, from, at, skip);
        SkipFromIsFirst(p, from, at, skip + 4);
        assert forall s: nat :: skip <= s && s % 4 == 0 ==> s == skip || skip + 4 <= s;
      }
    }
  }

  lemma BaseAnchorIsFirst(p: Parts, from: nat, at: nat)
    requires p.Has(from, at) && BaseAnchor(p, from, at).Hit?
    ensures NextIs(p, from, at, from, BaseAnchor(p, from, at).at)
  {
    BaseAnchorSpec(p, from, at);
    forall x: nat | at <= x < BaseAnchor(p, from, at).at ensures !p.IsAnchor(from, x) {
      if p.Has(from + ANCHOR, x + ANCHOR) {
        OccurrenceIsAnchor(p, from, x);
      }
    }
  }

  lemma NextAnchorIsNext(p: Parts, from: nat, at: nat)
    requires p.Has(from, at)
    ensures match NextAnchor(p, from, at)
            case Hit(a, f) => NextIs(p, from, at, f, a)
            case NoHit => NoAnchor(p, from, at)
  {
    hide BaseAnchor, SkipFrom, IndexOf;
    NextAnchorSpec(p, from, at);
    BaseAnchorSpec(p, from, at);
    SkipFromSpec(p, from, at, 0);
    SkipFromIsFirst(p, from, at, 0);
    if BaseAnchor(p, from, at).Hit? {
      BaseAnchorIsFirst(p, from, at);
    }
  }

  lemma NextIsOne(p: Parts, from: nat, at: nat, f: nat, a: nat, g: nat, b: nat)
    requires NextIs(p, from, at, f, a) && NextIs(p, from, at, g, b)
    ensures f == g && a == b
  {
    if f != from && g != from {
      assert AnchorAfter(p, f, at, a - at) && AnchorAfter(p, g, at, b - at);
      assert a - at < b - at ==> Unanchored(p, from, at, a - at);
      assert b - at < a - at ==> Unanchored(p, from, at, b - at);
    }
  }

  /** The anchor found is the one these words describe, and no other is. */
  lemma NextAnchorExactly(p: Parts, from: nat, at: nat, f: nat, a: nat)
    requires p.Has(from, at)
    ensures NextIs(p, from, at, f, a) <==> NextAnchor(p, from, at) == Hit(a, f)
    ensures NoAnchor(p, from, at) <==> NextAnchor(p, from, at) == NoHit
  {
    hide NextAnchor;
    NextAnchorIsNext(p, from, at);
    var hit := NextAnchor(p, from, at);
    if hit.Hit? {
      NextIsAnAnchor(p, from, at, hit.from, hit.at);
      if NextIs(p, from, at, f, a) {
        NextIsOne(p, from, at, f, a, hit.from, hit.at);
      }
    } else if NextIs(p, from, at, f, a) {
      NextIsAnAnchor(p, from, at, f, a);
    }
  }

  lemma NextIsAnAnchor(p: Parts, from: nat, at: nat, f: nat, a: nat)
    requires NextIs(p, from, at, f, a)
    ensures !NoAnchor(p, from, at)
  {
    if f != from {
      assert AnchorAfter(p, f, at, a - at);
      assert NoAnchor(p, from, at) ==> Unanchored(p, from, at, a - at);
    }
  }

  lemma NoCopyExactly(p: Parts, from: nat, at: nat)
    requires p.Has(from, at)
    ensures NoCopyHere(p, from, at) <==> !TakesRun(RunLength(p, from, at), at)
  {
    RunIsMaximal(p, from, at);
    var n := RunLength(p, from, at);
    if p.IsAnchor(from, at) {
      AgreementRuns(p, from, at, ANCHOR);
    }
    if p.Agree(from, at, 1) {
      AgreementRuns(p, from, at, 1);
    }
    assert n >= ANCHOR ==> p.IsAnchor(from, at);
    assert n >= 1 ==> p.Agree(from, at, 1);
  }

  lemma LongestExactly(p: Parts, from: nat, at: nat, n: nat)
    requires p.Has(from, at)
    ensures LongestAgreement(p, from, at, n) <==> n == RunLength(p, from, at)
  {
    RunIsMaximal(p, from, at);
    var m := RunLength(p, from, at);
    if LongestAgreement(p, from, at, n) {
      AgreementRuns(p, from, at, n);
    }
  }

  lemma Snoc(ops: seq<DeltaOp>, op: DeltaOp)
    ensures (ops + [op])[..|ops + [op]| - 1] == ops && (ops + [op])[|ops + [op]| - 1] == op
    ensures LineAt(ops + [op]) == LineAt(ops) + match op case Insert(text) => |text| case Copy(_, length) => length
    ensures BaseAt(ops + [op]) == match op case Insert(_) => BaseAt(ops) case Copy(start, length) => start + length
  {
    assert (ops + [op])[..|ops|] == ops;
  }

  /** The next anchor is found, and the operations so far end where the line stood when it was looked for. */
  ghost predicate OnTheWay(p: Parts, from: nat, at: nat, ops: seq<DeltaOp>) {
    var rest := if EndsWithText(ops) then ops[..|ops| - 1] else ops;
    && LineAt(ops) == at && |rest| < MAX_OPS && p.Has(BaseAt(ops), LineAt(rest))
    && NoCopyHere(p, BaseAt(ops), LineAt(rest)) && NextIs(p, BaseAt(ops), LineAt(rest), from, at)
  }

  ghost predicate Standing(p: Parts, from: nat, at: nat, ops: seq<DeltaOp>) {
    LineAt(ops) == at && BaseAt(ops) == from && !EndsWithText(ops)
  }

  lemma CopyIsRight(p: Parts, from: nat, at: nat, ops: seq<DeltaOp>)
    requires p.Has(from, at) && AllRight(p, ops) && TakesRun(RunLength(p, from, at), at)
    requires Standing(p, from, at, ops) || OnTheWay(p, from, at, ops)
    ensures var n := RunLength(p, from, at);
            AllRight(p, ops + [Copy(from, n)]) && Standing(p, from + n, at + n, ops + [Copy(from, n)])
  {
    hide RunLength, NextIs, NoCopyHere, LongestAgreement;
    var n := RunLength(p, from, at);
    LongestExactly(p, from, at, n);
    Snoc(ops, Copy(from, n));
  }

  lemma TextIsRight(p: Parts, from: nat, at: nat, ops: seq<DeltaOp>, end: nat)
    requires p.Has(from, at) && AllRight(p, ops) && Standing(p, from, at, ops) && NoCopyHere(p, from, at)
    requires at < end <= p.lineEnd
    ensures AllRight(p, ops + [Insert(p.line[at..end])]) && LineAt(ops + [Insert(p.line[at..end])]) == end
    ensures BaseAt(ops + [Insert(p.line[at..end])]) == from
  {
    hide NoCopyHere;
    Snoc(ops, Insert(p.line[at..end]));
  }

  lemma AnchorTakesRun(p: Parts, from: nat, at: nat)
    requires p.IsAnchor(from, at)
    ensures p.Has(from, at) && TakesRun(RunLength(p, from, at), at)
  {
    AgreementRuns(p, from, at, ANCHOR);
  }

  lemma {:induction false} MiddleIsRight(p: Parts, from: nat, at: nat, ops: seq<DeltaOp>)
    requires p.Has(from, at) && AllRight(p, ops)
    requires Standing(p, from, at, ops) || OnTheWay(p, from, at, ops)
    ensures var all := MiddleOps(p, from, at, ops); AllRight(p, all) && Covers(p, all)
    decreases p.lineEnd - at, if RunLength(p, from, at) >= ANCHOR then 0 else 1
  {
    hide RunLength, NextAnchor, AllRight, OnTheWay, LineAt, BaseAt, WithText, Parts.IsAnchor, NoAnchor;
    var run := RunLength(p, from, at);
    if OnTheWay(p, from, at, ops) {
      WayEndsAtAnchor(p, from, at, ops);
    }
    if at == p.lineEnd {
    } else if TakesRun(run, at) {
      CopyIsRight(p, from, at, ops);
      RunIsMaximal(p, from, at);
      MiddleIsRight(p, from + run, at + run, ops + [Copy(from, run)]);
    } else {
      HitRuns(p, from, at);
      var hit := if |ops| < MAX_OPS then NextAnchor(p, from, at) else NoHit;
      if hit.NoHit? {
        LastTextIsRight(p, from, at, ops);
      } else {
        HitIsOnTheWay(p, from, at, ops);
        MiddleIsRight(p, hit.from, hit.at, WithText(ops, p.line, at, hit.at));
      }
    }
  }

  lemma LastTextIsRight(p: Parts, from: nat, at: nat, ops: seq<DeltaOp>)
    requires p.Has(from, at) && at < p.lineEnd && AllRight(p, ops) && Standing(p, from, at, ops)
    requires !TakesRun(RunLength(p, from, at), at) && (|ops| < MAX_OPS ==> NextAnchor(p, from, at) == NoHit)
    ensures var all := ops + [Insert(p.line[at..p.lineEnd])]; AllRight(p, all) && Covers(p, all)
  {
    hide RunLength, NextAnchor, NoAnchor, NoCopyHere, AllRight;
    NoCopyExactly(p, from, at);
    NextAnchorIsNext(p, from, at);
    TextIsRight(p, from, at, ops, p.lineEnd);
    Snoc(ops, Insert(p.line[at..p.lineEnd]));
  }

  lemma HitIsOnTheWay(p: Parts, from: nat, at: nat, ops: seq<DeltaOp>)
    requires p.Has(from, at) && |ops| < MAX_OPS && AllRight(p, ops) && Standing(p, from, at, ops)
    requires !TakesRun(RunLength(p, from, at), at) && NextAnchor(p, from, at).Hit?
    ensures var hit := NextAnchor(p, from, at);
            && at <= hit.at && p.Has(hit.from, hit.at)
            && var next := WithText(ops, p.line, at, hit.at);
               AllRight(p, next) && OnTheWay(p, hit.from, hit.at, next)
  {
    hide RunLength, NextAnchor, NoCopyHere, AllRight;
    NoCopyExactly(p, from, at);
    NextAnchorIsNext(p, from, at);
    var hit := NextAnchor(p, from, at);
    if hit.at > at {
      TextIsRight(p, from, at, ops, hit.at);
      Snoc(ops, Insert(p.line[at..hit.at]));
    }
  }

  lemma WayEndsAtAnchor(p: Parts, from: nat, at: nat, ops: seq<DeltaOp>)
    requires OnTheWay(p, from, at, ops)
    ensures at < p.lineEnd && p.Has(from, at) && TakesRun(RunLength(p, from, at), at)
  {
    AnchorTakesRun(p, from, at);
  }

  lemma {:induction false} RightBefore(p: Parts, ops: seq<DeltaOp>, k: nat)
    requires AllRight(p, ops) && k <= |ops|
    ensures AllRight(p, ops[..k])
  {
    if k < |ops| {
      assert ops[..|ops| - 1][..k] == ops[..k];
      RightBefore(p, ops[..|ops| - 1], k);
    } else {
      assert ops[..k] == ops;
    }
  }

  lemma {:induction false} RightStands(p: Parts, ops: seq<DeltaOp>)
    requires p.Has(0, 0) && AllRight(p, ops)
    ensures p.Has(BaseAt(ops), LineAt(ops))
  {
    if ops != [] {
      RightStands(p, ops[..|ops| - 1]);
    }
  }

  lemma RightNext(p: Parts, ops: seq<DeltaOp>, k: nat)
    requires p.Has(0, 0) && AllRight(p, ops) && k < |ops|
    ensures ops[..k + 1] == ops[..k] + [ops[k]] && ops[..k + 1][..k] == ops[..k] && LastIsRight(p, ops[..k + 1])
    ensures p.Has(BaseAt(ops[..k]), LineAt(ops[..k])) && p.Has(BaseAt(ops[..k + 1]), LineAt(ops[..k + 1]))
  {
    RightBefore(p, ops, k);
    RightBefore(p, ops, k + 1);
    RightStands(p, ops[..k]);
    RightStands(p, ops[..k + 1]);
    assert ops[..k + 1][..k] == ops[..k];
  }

  /** From any place where they do not end with text, operations that are all right go on as the differ does. */
  lemma {:induction false} MiddleIsOnly(p: Parts, ops: seq<DeltaOp>, k: nat)
    requires p.Has(0, 0) && AllRight(p, ops) && Covers(p, ops) && k <= |ops| && !EndsWithText(ops[..k])
    ensures p.Has(BaseAt(ops[..k]), LineAt(ops[..k]))
    ensures MiddleOps(p, BaseAt(ops[..k]), LineAt(ops[..k]), ops[..k]) == ops
    decreases |ops| - k
  {
    hide *;
    RightBefore(p, ops, k);
    RightStands(p, ops[..k]);
    if k == |ops| {
      assert ops[..k] == ops;
      NothingGoesOn(p, ops);
    } else {
      RightNext(p, ops, k);
      if ops[k].Copy? {
        CopyFirst(p, ops, k);
        MiddleIsOnly(p, ops, k + 1);
      } else if k + 1 == |ops| {
        TextLast(p, ops, k);
      } else {
        RightNext(p, ops, k + 1);
        TextFirst(p, ops, k);
        MiddleIsOnly(p, ops, k + 2);
      }
    }
  }

  lemma NothingGoesOn(p: Parts, ops: seq<DeltaOp>)
    requires Covers(p, ops) && !EndsWithText(ops) && p.Has(BaseAt(ops), LineAt(ops))
    ensures MiddleOps(p, BaseAt(ops), LineAt(ops), ops) == ops
  {
  }

  lemma CopyFirst(p: Parts, ops: seq<DeltaOp>, k: nat)
    requires k < |ops| && ops[k].Copy? && p.Has(BaseAt(ops[..k]), LineAt(ops[..k])) && !EndsWithText(ops[..k])
    requires ops[..k + 1] == ops[..k] + [ops[k]] && ops[..k + 1][..k] == ops[..k] && LastIsRight(p, ops[..k + 1])
    ensures var next := ops[..k + 1];
            && !EndsWithText(next) && p.Has(BaseAt(next), LineAt(next))
            && MiddleOps(p, BaseAt(ops[..k]), LineAt(ops[..k]), ops[..k])
               == MiddleOps(p, BaseAt(next), LineAt(next), next)
  {
    hide MiddleOps, NextIs, NoCopyHere, LineAt, BaseAt;
    Snoc(ops[..k], ops[k]);
    var at := LineAt(ops[..k]);
    CopyGoesOn(p, BaseAt(ops[..k]), at, ops[..k], ops[k].start, at, ops[k].length);
  }

  lemma TextFirst(p: Parts, ops: seq<DeltaOp>, k: nat)
    requires k + 1 < |ops| && ops[k].Insert? && p.Has(BaseAt(ops[..k]), LineAt(ops[..k]))
    requires ops[..k + 1] == ops[..k] + [ops[k]] && ops[..k + 1][..k] == ops[..k] && LastIsRight(p, ops[..k + 1])
    requires ops[..k + 2] == ops[..k + 1] + [ops[k + 1]] && ops[..k + 2][..k + 1] == ops[..k + 1]
    requires LastIsRight(p, ops[..k + 2])
    ensures var next := ops[..k + 2];
            && !EndsWithText(next) && p.Has(BaseAt(next), LineAt(next))
            && MiddleOps(p, BaseAt(ops[..k]), LineAt(ops[..k]), ops[..k])
               == MiddleOps(p, BaseAt(next), LineAt(next), next)
  {
    hide MiddleOps, NextIs, NoCopyHere, LineAt, BaseAt;
    Snoc(ops[..k], ops[k]);
    Snoc(ops[..k + 1], ops[k + 1]);
    var from, at, a := BaseAt(ops[..k]), LineAt(ops[..k]), LineAt(ops[..k + 1]);
    CopyGoesOn(p, from, at, ops[..k], ops[k + 1].start, a, ops[k + 1].length);
  }

  lemma TextLast(p: Parts, ops: seq<DeltaOp>, k: nat)
    requires k + 1 == |ops| && ops[k].Insert? && p.Has(BaseAt(ops[..k]), LineAt(ops[..k])) && Covers(p, ops)
    requires ops[..k + 1] == ops[..k] + [ops[k]] && ops[..k + 1][..k] == ops[..k] && LastIsRight(p, ops[..k + 1])
    ensures MiddleOps(p, BaseAt(ops[..k]), LineAt(ops[..k]), ops[..k]) == ops
  {
    hide NextAnchor, NextIs, NoAnchor, NoCopyHere, LineAt, BaseAt, RunLength;
    Snoc(ops[..k], ops[k]);
    assert ops[..k + 1] == ops;
    var from, at := BaseAt(ops[..k]), LineAt(ops[..k]);
    NoCopyExactly(p, from, at);
    NextAnchorExactly(p, from, at, 0, 0);
  }

  /** A copy that goes on, or starts at the next anchor, is the differ's next one. */
  lemma CopyGoesOn(p: Parts, from: nat, at: nat, ops: seq<DeltaOp>, start: nat, a: nat, length: nat)
    requires p.Has(from, at) && at <= a <= p.lineEnd && LongestAgreement(p, start, a, length)
    requires (a == at && start == from && TakesRun(length, at)) ||
             (|ops| < MAX_OPS && NoCopyHere(p, from, at) && NextIs(p, from, at, start, a))
    ensures p.Has(start + length, a + length)
    ensures MiddleOps(p, from, at, ops)
            == MiddleOps(p, start + length, a + length, WithText(ops, p.line, at, a) + [Copy(start, length)])
  {
    hide NextAnchor, RunLength, NextIs, NoCopyHere;
    LongestExactly(p, start, a, length);
    if !(a == at && start == from && TakesRun(length, at)) {
      NoCopyExactly(p, from, at);
      NextAnchorExactly(p, from, at, start, a);
      HitRuns(p, from, at);
    }
  }

  lemma LongestEndOnly(base: Text, line: Text, n: nat, m: nat)
    requires LongestEnd(base, line, n) && LongestEnd(base, line, m)
    ensures n == m
  {
  }

  /**
   * The differ's operations are exactly these: the longest common ending as one copy, and before it each operation the
   * right one after those before it, to where the ending starts.
   */
  lemma DiffExactly(base: Text, line: Text, ops: seq<DeltaOp>)
    ensures IsDiff(base, line, ops) <==> ops == Diff(base, line)
  {
    hide MiddleOps, AllRight, Covers, LongestEnd;
    var p := Middle(base, line);
    SuffixIsLongest(base, line);
    if ops == Diff(base, line) {
      DiffIsDiff(base, line);
    }
    if IsDiff(base, line, ops) {
      var suffix: nat, middle: seq<DeltaOp> :| IsDiffBy(base, line, ops, suffix, middle);
      LongestEndOnly(base, line, suffix, CommonSuffix(base, line, 0));
      FromTheStart(p, middle);
    }
  }

  lemma SuffixIsLongest(base: Text, line: Text)
    ensures LongestEnd(base, line, CommonSuffix(base, line, 0))
  {
    CommonSuffixAgrees(base, line, 0);
  }

  lemma NoneIsRight(p: Parts)
    ensures AllRight(p, []) && Standing(p, 0, 0, [])
  {
  }

  lemma DiffIsDiff(base: Text, line: Text)
    ensures IsDiff(base, line, Diff(base, line))
  {
    hide MiddleOps, Covers, LongestEnd, CommonSuffix, AllRight, Standing, OnTheWay;
    var p := Middle(base, line);
    SuffixIsLongest(base, line);
    NoneIsRight(p);
    MiddleIsRight(p, 0, 0, []);
    assert IsDiffBy(base, line, Diff(base, line), CommonSuffix(base, line, 0), MiddleOps(p, 0, 0, []));
  }

  lemma FromTheStart(p: Parts, middle: seq<DeltaOp>)
    requires p.Has(0, 0) && AllRight(p, middle) && Covers(p, middle)
    ensures middle == MiddleOps(p, 0, 0, [])
  {
    hide MiddleOps, AllRight, Covers;
    assert middle[..0] == [];
    MiddleIsOnly(p, middle, 0);
  }
}
