/** The fragment of Python's `re` that both scripts use: literals (optionally compared
    case-insensitively, as under `re.IGNORECASE`), single characters of a class, and the
    greedy quantifiers `*` and `+` over a class.

    `Back` is the reference: it explores alternatives in the order Python's backtracking
    engine does (longest repetition first, then one character shorter, ...), so
    `Search` is `re.search`. `Conforms` is the relational reading of a match, with no
    preference among alternatives. `Greedy` and `Scan` are one-pass scanners that never
    backtrack; `BackIsGreedy` shows they agree with the reference whenever every
    repetition is followed by something that cannot start with a character of its class
    (`Det`), which is the case for every pattern the scripts use except the name pattern. */
module Regex {
  import opened Wrappers
  import opened Text

  datatype Class =
    | Digit        // \d
    | Space        // \s
    | Letter       // [A-Z] under re.IGNORECASE
    | AmountChar   // [\d,\.] and [0-9,.]
    | SoldChar     // [0-9kK.+,]
    | NotNewline   // .

  predicate InClass(c: char, k: Class) {
    match k
    case Digit => IsDigit(c)
    case Space => IsSpace(c)
    case Letter => IsAsciiLetter(c)
    case AmountChar => IsDigit(c) || c == ',' || c == '.'
    case SoldChar => IsDigit(c) || c == 'k' || c == 'K' || c == '.' || c == '+' || c == ','
    case NotNewline => c != '\n'
  }

  ghost predicate Disjoint(k1: Class, k2: Class) {
    forall c: char :: InClass(c, k1) ==> !InClass(c, k2)
  }

  datatype Atom =
    | Lit(text: string, fold: bool)   // a literal; `fold` compares ASCII letters ignoring case
    | One(cls: Class)                 // exactly one character of the class
    | Star(cls: Class)                // greedy `*`
    | Plus(cls: Class)                // greedy `+`

  type Pattern = seq<Atom>

  predicate CharMatches(c: char, l: char, fold: bool) {
    if fold then Lower(c) == Lower(l) else c == l
  }

  /** The literal `s` occurs in `t` at position `i`. */
  predicate LitAt(t: string, i: nat, s: string, fold: bool)
    requires i <= |t|
    ensures LitAt(t, i, s, fold) ==> i + |s| <= |t|
    decreases |s|
  {
    |s| == 0 || (i < |t| && CharMatches(t[i], s[0], fold) && LitAt(t, i + 1, s[1..], fold))
  }

  /** Length of the longest run of class characters starting at `i`. */
  function RunLen(t: string, i: nat, k: Class): (n: nat)
    requires i <= |t|
    ensures i + n <= |t|
    ensures forall j :: i <= j < i + n ==> InClass(t[j], k)
    ensures i + n == |t| || !InClass(t[i + n], k)
    decreases |t| - i
  {
    if i < |t| && InClass(t[i], k) then 1 + RunLen(t, i + 1, k) else 0
  }

  /** A match is recorded as the end position of each atom; atom `k` spans from the end of
      atom `k - 1` (or from the match start) to `ends[k]`. */
  predicate Spans(i: nat, ends: seq<nat>, n: nat)
    ensures Spans(i, ends, n) ==> i <= n
    decreases |ends|
  {
    if |ends| == 0 then i <= n else i <= ends[0] && Spans(ends[0], ends[1..], n)
  }

  /** The text atom `k` consumed. */
  function Group(t: string, i: nat, ends: seq<nat>, k: nat): string
    requires Spans(i, ends, |t|) && k < |ends|
    decreases k
  {
    if k == 0 then t[i..ends[0]] else Group(t, ends[0], ends[1..], k - 1)
  }

  predicate AllIn(t: string, i: nat, e: nat, k: Class)
    requires i <= e <= |t|
  {
    forall j :: i <= j < e ==> InClass(t[j], k)
  }

  /** Atom `a` can consume exactly `t[i..e]`. */
  predicate AtomSpan(a: Atom, t: string, i: nat, e: nat)
    requires i <= e <= |t|
  {
    match a
    case Lit(s, fold) => e == i + |s| && LitAt(t, i, s, fold)
    case One(k) => e == i + 1 && InClass(t[i], k)
    case Star(k) => AllIn(t, i, e, k)
    case Plus(k) => i < e && AllIn(t, i, e, k)
  }

  /** `ends` is one way for `p` to match `t` starting at `i` (the relational semantics). */
  predicate Conforms(p: Pattern, t: string, i: nat, ends: seq<nat>)
    ensures Conforms(p, t, i, ends) ==> Spans(i, ends, |t|)
    decreases |p|
  {
    && |ends| == |p| && i <= |t|
    && (|p| == 0 || (i <= ends[0] <= |t| && AtomSpan(p[0], t, i, ends[0]) && Conforms(p[1..], t, ends[0], ends[1..])))
  }

  /** Where atom `k` of a match starts. */
  function Begin(i: nat, ends: seq<nat>, k: nat): nat
    requires k <= |ends|
  {
    if k == 0 then i else ends[k - 1]
  }

  /** `Conforms` atom by atom: each atom consumes the text between its start and end. */
  predicate Chain(p: Pattern, t: string, i: nat, ends: seq<nat>) {
    && |ends| == |p| && i <= |t|
    && forall k :: 0 <= k < |p| ==>
         Begin(i, ends, k) <= ends[k] <= |t| && AtomSpan(p[k], t, Begin(i, ends, k), ends[k])
  }

  function Cons(e: nat, o: Option<seq<nat>>): Option<seq<nat>> {
    match o
    case Some(b) => Some([e] + b)
    case None => None
  }

  /** Python's backtracking matcher, anchored at `i`: the first way to match in the
      engine's order of preference. */
  function Back(p: Pattern, t: string, i: nat): (r: Option<seq<nat>>)
    requires i <= |t|
    ensures r.Some? ==> |r.value| == |p|
    decreases |p|, 0, 0
  {
    if |p| == 0 then Some([])
    else match p[0]
      case Lit(s, fold) =>
        if LitAt(t, i, s, fold) then Cons(i + |s|, Back(p[1..], t, i + |s|)) else None
      case One(k) =>
        if i < |t| && InClass(t[i], k) then Cons(i + 1, Back(p[1..], t, i + 1)) else None
      case Star(k) =>
        Try(p[1..], t, i, RunLen(t, i, k), 0)
      case Plus(k) =>
        var m := RunLen(t, i, k);
        if m == 0 then None else Try(p[1..], t, i, m, 1)
  }

  /** Backtracking over a repetition: let it end at `i + n`, then one character earlier,
      ..., down to `i + lo`, and keep the first end after which `rest` matches. */
  function Try(rest: Pattern, t: string, i: nat, n: nat, lo: nat): (r: Option<seq<nat>>)
    requires i + n <= |t| && lo <= n
    ensures r.Some? ==> |r.value| == |rest| + 1 && i + lo <= r.value[0] <= i + n
    decreases |rest|, 1, n
  {
    match Back(rest, t, i + n)
    case Some(b) => Some([i + n] + b)
    case None => if n > lo then Try(rest, t, i, n - 1, lo) else None
  }

  /** The scanner: every repetition takes its longest run and is never revisited. */
  function Greedy(p: Pattern, t: string, i: nat): (r: Option<seq<nat>>)
    requires i <= |t|
    ensures r.Some? ==> |r.value| == |p|
    decreases |p|
  {
    if |p| == 0 then Some([])
    else match p[0]
      case Lit(s, fold) =>
        if LitAt(t, i, s, fold) then Cons(i + |s|, Greedy(p[1..], t, i + |s|)) else None
      case One(k) =>
        if i < |t| && InClass(t[i], k) then Cons(i + 1, Greedy(p[1..], t, i + 1)) else None
      case Star(k) =>
        var m := RunLen(t, i, k);
        Cons(i + m, Greedy(p[1..], t, i + m))
      case Plus(k) =>
        var m := RunLen(t, i, k);
        if m == 0 then None else Cons(i + m, Greedy(p[1..], t, i + m))
  }

  /** Every answer of the backtracking matcher is a way to match. */
  lemma {:induction false} BackSound(p: Pattern, t: string, i: nat)
    requires i <= |t| && Back(p, t, i).Some?
    ensures Conforms(p, t, i, Back(p, t, i).value)
    decreases |p|, 0, 0
  {
    if |p| > 0 {
      var ends := Back(p, t, i).value;
      match p[0]
      case Lit(s, fold) =>
        BackSound(p[1..], t, i + |s|);
        assert ends[1..] == Back(p[1..], t, i + |s|).value;
      case One(k) =>
        BackSound(p[1..], t, i + 1);
        assert ends[1..] == Back(p[1..], t, i + 1).value;
      case Star(k) =>
        TrySound(p[1..], t, i, RunLen(t, i, k), 0);
      case Plus(k) =>
        TrySound(p[1..], t, i, RunLen(t, i, k), 1);
    }
  }

  lemma {:induction false} TrySound(rest: Pattern, t: string, i: nat, n: nat, lo: nat)
    requires i + n <= |t| && lo <= n && Try(rest, t, i, n, lo).Some?
    ensures var r := Try(rest, t, i, n, lo).value;
      Conforms(rest, t, r[0], r[1..])
    decreases |rest|, 1, n
  {
    if Back(rest, t, i + n).Some? {
      BackSound(rest, t, i + n);
      assert Try(rest, t, i, n, lo).value[1..] == Back(rest, t, i + n).value;
    } else {
      TrySound(rest, t, i, n - 1, lo);
    }
  }

  /** Every answer of the scanner is a way to match. */
  lemma {:induction false} GreedySound(p: Pattern, t: string, i: nat)
    requires i <= |t| && Greedy(p, t, i).Some?
    ensures Conforms(p, t, i, Greedy(p, t, i).value)
    decreases |p|
  {
    if |p| > 0 {
      GreedyUnfold(p, t, i);
      var e := StepEnd(p[0], t, i).value;
      GreedySound(p[1..], t, e);
      assert Greedy(p, t, i).value[1..] == Greedy(p[1..], t, e).value;
    }
  }

  datatype Match = Match(start: nat, ends: seq<nat>)

  /** `re.search(p, t[from..])`: the leftmost start at which the backtracking matcher succeeds. */
  function Search(p: Pattern, t: string, from: nat): (r: Option<Match>)
    requires from <= |t|
    ensures r.Some? ==> from <= r.value.start <= |t| && Back(p, t, r.value.start) == Some(r.value.ends)
    ensures r.Some? ==> Spans(r.value.start, r.value.ends, |t|)
    ensures r.Some? ==> forall j :: from <= j < r.value.start ==> Back(p, t, j).None?
    ensures r.None? ==> forall j :: from <= j <= |t| ==> Back(p, t, j).None?
    decreases |t| - from
  {
    match Back(p, t, from)
    case Some(b) => BackSound(p, t, from); Some(Match(from, b))
    case None => if from == |t| then None else Search(p, t, from + 1)
  }

  /** The scanning search: the leftmost start at which the greedy scanner succeeds. */
  function Scan(p: Pattern, t: string, from: nat): (r: Option<Match>)
    requires from <= |t|
    ensures r.Some? ==> from <= r.value.start <= |t| && Greedy(p, t, r.value.start) == Some(r.value.ends)
    ensures r.Some? ==> Spans(r.value.start, r.value.ends, |t|)
    ensures r.Some? ==> forall j :: from <= j < r.value.start ==> Greedy(p, t, j).None?
    ensures r.None? ==> forall j :: from <= j <= |t| ==> Greedy(p, t, j).None?
    decreases |t| - from
  {
    match Greedy(p, t, from)
    case Some(b) => GreedySound(p, t, from); Some(Match(from, b))
    case None => if from == |t| then None else Scan(p, t, from + 1)
  }

  /** No match of `rest` can begin with a character of class `k`. */
  ghost predicate Excl(rest: Pattern, k: Class)
    decreases |rest|
  {
    |rest| > 0 &&
    match rest[0]
    case Lit(s, fold) => |s| > 0 && !fold && !InClass(s[0], k)
    case One(k2) => Disjoint(k2, k)
    case Plus(k2) => Disjoint(k2, k)
    case Star(k2) => Disjoint(k2, k) && Excl(rest[1..], k)
  }

  /** Every repetition that is not last is followed by something that excludes its class. */
  ghost predicate Det(p: Pattern)
    decreases |p|
  {
    |p| == 0 ||
    (Det(p[1..]) && ((p[0].Star? || p[0].Plus?) && |p| > 1 ==> Excl(p[1..], p[0].cls)))
  }

  // ---------------------------------------------------------------------------
  // The reference matcher is sound (see the ensures of `Back`) and complete.

  lemma {:induction false} TryFinds(rest: Pattern, t: string, i: nat, n: nat, lo: nat, m: nat)
    requires i + n <= |t| && lo <= m <= n
    requires Back(rest, t, i + m).Some?
    ensures Try(rest, t, i, n, lo).Some?
    decreases n
  {
    if n > m && Back(rest, t, i + n).None? {
      TryFinds(rest, t, i, n - 1, lo, m);
    }
  }

  /** Whenever some way to match exists, the backtracking matcher finds one. */
  lemma {:induction false} BackComplete(p: Pattern, t: string, i: nat, ends: seq<nat>)
    requires Conforms(p, t, i, ends)
    ensures Back(p, t, i).Some?
    decreases |p|
  {
    if |p| > 0 {
      BackComplete(p[1..], t, ends[0], ends[1..]);
      match p[0]
      case Lit(s, fold) =>
      case One(k) =>
      case Star(k) =>
        TryFinds(p[1..], t, i, RunLen(t, i, k), 0, ends[0] - i);
      case Plus(k) =>
        TryFinds(p[1..], t, i, RunLen(t, i, k), 1, ends[0] - i);
    }
  }

  /** `re.search` finds the leftmost position at which the pattern can match at all, and
      reports no match only when it can match nowhere. */
  lemma SearchLeftmost(p: Pattern, t: string, from: nat)
    requires from <= |t|
    ensures Search(p, t, from).Some? ==>
      var m := Search(p, t, from).value;
      Conforms(p, t, m.start, m.ends) &&
      forall j, ends :: from <= j < m.start ==> !Conforms(p, t, j, ends)
    ensures Search(p, t, from).None? ==> forall j, ends :: from <= j <= |t| ==> !Conforms(p, t, j, ends)
  {
    forall j, ends | from <= j <= |t| && Conforms(p, t, j, ends)
      ensures Back(p, t, j).Some?
    {
      BackComplete(p, t, j, ends);
    }
    if Search(p, t, from).Some? {
      SearchSound(p, t, from);
    }
  }

  /** What the scanning search returns is a way to match. */
  lemma ScanSound(p: Pattern, t: string, from: nat)
    requires from <= |t| && Scan(p, t, from).Some?
    ensures Conforms(p, t, Scan(p, t, from).value.start, Scan(p, t, from).value.ends)
  {
    GreedySound(p, t, Scan(p, t, from).value.start);
  }

  /** What `re.search` returns is a way to match. */
  lemma SearchSound(p: Pattern, t: string, from: nat)
    requires from <= |t| && Search(p, t, from).Some?
    ensures Conforms(p, t, Search(p, t, from).value.start, Search(p, t, from).value.ends)
  {
    BackSound(p, t, Search(p, t, from).value.start);
  }

  /** A way to match at `i` means `re.search` succeeds, at `i` or earlier. */
  lemma SearchReaches(p: Pattern, t: string, i: nat, ends: seq<nat>)
    requires Conforms(p, t, i, ends)
    ensures Search(p, t, 0).Some? && Search(p, t, 0).value.start <= i
  {
    BackComplete(p, t, i, ends);
  }

  lemma {:induction false} LitAtSuffix(t: string, i: nat, s: string, fold: bool, k: nat)
    requires i <= |t| && LitAt(t, i, s, fold) && k <= |s|
    ensures LitAt(t, i + k, s[k..], fold)
    decreases k
  {
    if k > 0 {
      LitAtSuffix(t, i + 1, s[1..], fold, k - 1);
      assert s[1..][k - 1..] == s[k..];
    }
  }

  /** A search is not anchored: wherever a pattern that starts with a literal matches, the
      same pattern with only a suffix of that literal matches too, `k` characters later or
      earlier. */
  lemma SuffixPatternReaches(s: string, fold: bool, rest: Pattern, k: nat, t: string)
    requires k <= |s| && Search([Lit(s, fold)] + rest, t, 0).Some?
    ensures Search([Lit(s[k..], fold)] + rest, t, 0).Some?
    ensures Search([Lit(s[k..], fold)] + rest, t, 0).value.start <= Search([Lit(s, fold)] + rest, t, 0).value.start + k
  {
    var p := [Lit(s, fold)] + rest;
    var p' := [Lit(s[k..], fold)] + rest;
    var m := Search(p, t, 0).value;
    SearchSound(p, t, 0);
    LitAtSuffix(t, m.start, s, fold, k);
    assert p[1..] == rest == p'[1..];
    assert Conforms(p', t, m.start + k, m.ends);
    SearchReaches(p', t, m.start + k, m.ends);
  }

  /** The recursive and the atom-by-atom reading of a match agree. */
  lemma {:induction false} ConformsIsChain(p: Pattern, t: string, i: nat, ends: seq<nat>)
    ensures Conforms(p, t, i, ends) <==> Chain(p, t, i, ends)
    decreases |p|
  {
    if |p| > 0 && |ends| == |p| && i <= |t| && i <= ends[0] <= |t| {
      ConformsIsChain(p[1..], t, ends[0], ends[1..]);
      forall k | 1 <= k < |p|
        ensures Begin(i, ends, k) == Begin(ends[0], ends[1..], k - 1)
      {
      }
      if Chain(p, t, i, ends) {
        forall k | 0 <= k < |p[1..]|
          ensures Begin(ends[0], ends[1..], k) <= ends[1..][k] <= |t|
          ensures AtomSpan(p[1..][k], t, Begin(ends[0], ends[1..], k), ends[1..][k])
        {
          assert Begin(i, ends, k + 1) <= ends[k + 1] <= |t|;
        }
      }
      if Conforms(p, t, i, ends) {
        forall k | 1 <= k < |p|
          ensures Begin(i, ends, k) <= ends[k] <= |t| && AtomSpan(p[k], t, Begin(i, ends, k), ends[k])
        {
          assert Begin(ends[0], ends[1..], k - 1) <= ends[1..][k - 1] <= |t|;
        }
      }
    }
  }

  /** The group of atom `k` is the text between its start and end. */
  lemma {:induction false} GroupIsSlice(t: string, i: nat, ends: seq<nat>, k: nat)
    requires Spans(i, ends, |t|) && k < |ends|
    ensures Begin(i, ends, k) <= ends[k] <= |t|
    ensures Group(t, i, ends, k) == t[Begin(i, ends, k)..ends[k]]
    decreases k
  {
    if k > 0 {
      GroupIsSlice(t, ends[0], ends[1..], k - 1);
    } else if |ends| > 1 {
      assert Spans(ends[0], ends[1..], |t|);
    }
  }

  // ---------------------------------------------------------------------------
  // Under `Det`, backtracking never changes the outcome: the scanner is exact.

  lemma {:induction false} ExclRejects(rest: Pattern, t: string, j: nat, k: Class)
    requires Excl(rest, k) && j < |t| && InClass(t[j], k)
    ensures Back(rest, t, j).None?
    decreases |rest|
  {
    match rest[0]
    case Lit(s, fold) =>
      assert !CharMatches(t[j], s[0], fold);
    case One(k2) =>
      assert !InClass(t[j], k2);
    case Plus(k2) =>
      assert !InClass(t[j], k2);
      assert RunLen(t, j, k2) == 0;
    case Star(k2) =>
      assert !InClass(t[j], k2);
      assert RunLen(t, j, k2) == 0;
      ExclRejects(rest[1..], t, j, k);
  }

  lemma {:induction false} TryRejects(rest: Pattern, t: string, i: nat, n: nat, lo: nat, k: Class)
    requires i + n <= |t| && lo <= n
    requires Excl(rest, k)
    requires forall j :: i + lo <= j < i + n ==> InClass(t[j], k)
    requires Back(rest, t, i + n).None?
    ensures Try(rest, t, i, n, lo).None?
    decreases n
  {
    if n > lo {
      ExclRejects(rest, t, i + n - 1, k);
      TryRejects(rest, t, i, n - 1, lo, k);
    }
  }

  lemma {:induction false} BackIsGreedy(p: Pattern, t: string, i: nat)
    requires Det(p) && i <= |t|
    ensures Back(p, t, i) == Greedy(p, t, i)
    decreases |p|
  {
    if |p| > 0 {
      var e := StepEnd(p[0], t, i);
      if e.Some? {
        BackIsGreedy(p[1..], t, e.value);
      }
      if p[0].Lit? || p[0].One? {
        BackFixedStep(p, t, i);
      } else {
        BackRepStep(p, t, i);
      }
    }
  }

  /** Where the scanner lets the first atom end when it starts at `i`, if it can match. */
  function StepEnd(a: Atom, t: string, i: nat): (r: Option<nat>)
    requires i <= |t|
    ensures r.Some? ==> i <= r.value <= |t|
  {
    match a
    case Lit(s, fold) => if LitAt(t, i, s, fold) then Some(i + |s|) else None
    case One(k) => if i < |t| && InClass(t[i], k) then Some(i + 1) else None
    case Star(k) => Some(i + RunLen(t, i, k))
    case Plus(k) => if RunLen(t, i, k) == 0 then None else Some(i + RunLen(t, i, k))
  }

  /** A literal or single character leaves nothing to backtrack over. */
  lemma BackFixedStep(p: Pattern, t: string, i: nat)
    requires i <= |t| && |p| > 0 && (p[0].Lit? || p[0].One?)
    requires var e := StepEnd(p[0], t, i); e.Some? ==> Back(p[1..], t, e.value) == Greedy(p[1..], t, e.value)
    ensures Back(p, t, i) == Greedy(p, t, i)
  {
  }

  /** A repetition followed by something that excludes its class: backtracking over the
      run gives the greedy answer. */
  lemma BackRepStep(p: Pattern, t: string, i: nat)
    requires i <= |t| && |p| > 0 && (p[0].Star? || p[0].Plus?)
    requires |p| > 1 ==> Excl(p[1..], p[0].cls)
    requires var m := RunLen(t, i, p[0].cls);
      (p[0].Star? || m > 0) ==> Back(p[1..], t, i + m) == Greedy(p[1..], t, i + m)
    ensures Back(p, t, i) == Greedy(p, t, i)
  {
    var k := p[0].cls;
    var m := RunLen(t, i, k);
    var lo := if p[0].Plus? then 1 else 0;
    RepUnfold(p, t, i);
    if lo <= m {
      TryGreedy(p[1..], t, i, m, lo, k);
    }
  }

  /** Both matchers on a leading repetition: the scanner takes the whole run, the
      backtracking matcher tries the run's ends from the longest. */
  lemma RepUnfold(p: Pattern, t: string, i: nat)
    requires i <= |t| && |p| > 0 && (p[0].Star? || p[0].Plus?)
    ensures var m := RunLen(t, i, p[0].cls);
      var lo := if p[0].Plus? then 1 else 0;
      && Back(p, t, i) == (if lo <= m then Try(p[1..], t, i, m, lo) else None)
      && Greedy(p, t, i) == (if lo <= m then Cons(i + m, Greedy(p[1..], t, i + m)) else None)
  {
  }

  /** Backtracking over a run of class `k` that `rest` cannot start in: once `rest`
      agrees with the scanner after the whole run, backtracking gives the greedy answer. */
  lemma TryGreedy(rest: Pattern, t: string, i: nat, m: nat, lo: nat, k: Class)
    requires i + m <= |t| && lo <= m
    requires |rest| > 0 ==> Excl(rest, k)
    requires forall j :: i + lo <= j < i + m ==> InClass(t[j], k)
    requires Back(rest, t, i + m) == Greedy(rest, t, i + m)
    ensures Try(rest, t, i, m, lo) == Cons(i + m, Greedy(rest, t, i + m))
  {
    if Back(rest, t, i + m).None? && m > lo {
      TryRejects(rest, t, i, m, lo, k);
    }
  }

  /** For a deterministic pattern the scanning search returns exactly what `re.search` does. */
  lemma {:induction false} ScanIsSearch(p: Pattern, t: string, from: nat)
    requires Det(p) && from <= |t|
    ensures Scan(p, t, from) == Search(p, t, from)
    decreases |t| - from
  {
    BackIsGreedy(p, t, from);
    if Back(p, t, from).None? && from < |t| {
      ScanIsSearch(p, t, from + 1);
    }
  }

  // ---------------------------------------------------------------------------
  // What a group holds.

  /** A repetition's group consists of characters of its class (non-empty for `+`). */
  lemma {:induction false} GroupInClass(p: Pattern, t: string, i: nat, ends: seq<nat>, k: nat)
    requires Conforms(p, t, i, ends) && k < |p| && !p[k].Lit?
    ensures Spans(i, ends, |t|)
    ensures var g := Group(t, i, ends, k); forall x :: 0 <= x < |g| ==> InClass(g[x], p[k].cls)
    ensures p[k].Plus? || p[k].One? ==> |Group(t, i, ends, k)| > 0
    decreases k
  {
    if k == 0 {
      var g := Group(t, i, ends, 0);
      assert forall x :: 0 <= x < |g| ==> g[x] == t[i + x];
    } else {
      GroupInClass(p[1..], t, ends[0], ends[1..], k - 1);
      assert p[1..][k - 1] == p[k];
      assert Group(t, i, ends, k) == Group(t, ends[0], ends[1..], k - 1);
    }
  }

  /** The scanner takes the first atom as far as `StepEnd` says and goes on from there. */
  lemma GreedyUnfold(p: Pattern, t: string, i: nat)
    requires i <= |t| && |p| > 0
    ensures Greedy(p, t, i) ==
      match StepEnd(p[0], t, i)
      case Some(e) => Cons(e, Greedy(p[1..], t, e))
      case None => None
  {
  }

  lemma GreedyStep(p: Pattern, t: string, i: nat)
    requires i <= |t| && Greedy(p, t, i).Some? && |p| > 0
    ensures var ends := Greedy(p, t, i).value;
      ends[0] <= |t| && Greedy(p[1..], t, ends[0]) == Some(ends[1..])
    ensures var ends := Greedy(p, t, i).value;
      (p[0].Star? || p[0].Plus?) ==> ends[0] == i + RunLen(t, i, p[0].cls)
  {
    GreedyUnfold(p, t, i);
    var e := StepEnd(p[0], t, i).value;
    assert Greedy(p, t, i).value == [e] + Greedy(p[1..], t, e).value;
  }

  lemma GreedyPlusStep(p: Pattern, t: string, i: nat)
    requires i <= |t| && |p| > 0 && p[0].Plus?
    ensures Greedy(p, t, i) ==
      if RunLen(t, i, p[0].cls) == 0 then None
      else Cons(i + RunLen(t, i, p[0].cls), Greedy(p[1..], t, i + RunLen(t, i, p[0].cls)))
  {
  }

  /** A match that begins with a `+` repetition also matches one character earlier when
      that character is in the repetition's class. */
  lemma GreedyPlusExtends(p: Pattern, t: string, i: nat)
    requires 0 < i <= |t| && |p| > 0 && p[0].Plus? && InClass(t[i - 1], p[0].cls)
    requires Greedy(p, t, i).Some?
    ensures Greedy(p, t, i - 1).Some?
  {
    GreedyPlusStep(p, t, i);
    GreedyPlusStep(p, t, i - 1);
    assert RunLen(t, i - 1, p[0].cls) == 1 + RunLen(t, i, p[0].cls);
  }

  /** The repetitions of a scanning search's match are maximal. */
  lemma ScanRunMaximal(p: Pattern, t: string, k: nat)
    requires Scan(p, t, 0).Some? && k < |p| && (p[k].Star? || p[k].Plus?)
    ensures var m := Scan(p, t, 0).value;
      m.ends[k] < |t| ==> !InClass(t[m.ends[k]], p[k].cls)
  {
    GreedyRunMaximal(p, t, Scan(p, t, 0).value.start, k);
  }

  /** A scanning search for a pattern that begins with a `+` repetition starts its match
      at the beginning of a run of the repetition's class. */
  lemma ScanStartsRun(p: Pattern, t: string)
    requires |p| > 0 && p[0].Plus? && Scan(p, t, 0).Some?
    ensures var i := Scan(p, t, 0).value.start; i == 0 || !InClass(t[i - 1], p[0].cls)
  {
    var i := Scan(p, t, 0).value.start;
    if i > 0 && InClass(t[i - 1], p[0].cls) {
      GreedyPlusExtends(p, t, i);
      assert false;
    }
  }

  /** The scanner's repetitions are maximal: the character after each run is not in its class. */
  lemma {:induction false} GreedyRunMaximal(p: Pattern, t: string, i: nat, k: nat)
    requires i <= |t| && Greedy(p, t, i).Some? && k < |p| && (p[k].Star? || p[k].Plus?)
    ensures var ends := Greedy(p, t, i).value;
      ends[k] < |t| ==> !InClass(t[ends[k]], p[k].cls)
    decreases k
  {
    GreedyStep(p, t, i);
    var ends := Greedy(p, t, i).value;
    if k > 0 {
      GreedyRunMaximal(p[1..], t, ends[0], k - 1);
      assert ends[1..][k - 1] == ends[k];
    }
  }
}
