/** The bookkeeping of the prediction driver (run_alphafold.py): the flag
    check, the conversion of model outputs to plain arrays, the per-model
    seeds, the ranking by confidence, the choice of models to relax and the
    ranked outputs. The models, the feature pipeline and the relaxer are
    parameters: only what the driver does with their results is modelled. */
module AlphaFold {
  import opened Wrappers
  import opened Strings

  // ---------------------------------------------------------------------
  // `_check_flag` (run_alphafold.py:95-101)

  /** The value of a command-line flag; `Unset` is Python's `None`. */
  datatype FlagValue = Unset | Bool(b: bool) | Int(i: int) | Text(s: string)

  /** `bool(value)`. */
  predicate Truthy(v: FlagValue) {
    match v
    case Unset => false
    case Bool(b) => b
    case Int(i) => i != 0
    case Text(s) => s != ""
  }

  function Digits(n: nat): string
    decreases n
  {
    if n < 10 then ["0123456789"[n]] else Digits(n / 10) + ["0123456789"[n % 10]]
  }

  /** `str(value)` inside an f-string. */
  function Display(v: FlagValue): string {
    match v
    case Unset => "None"
    case Bool(b) => if b then "True" else "False"
    case Int(i) => if i < 0 then "-" + Digits(-i) else Digits(i)
    case Text(s) => s
  }

  /** What `_check_flag` raises. */
  datatype FlagError = KeyError(name: string) | ValueError(message: string)

  function Verb(shouldBeSet: bool): string {
    if shouldBeSet then "be" else "not be"
  }

  /** Raises `ValueError` when the flag's truthiness is not `shouldBeSet`,
      naming both flags and the other flag's value; looking up a flag that is
      not defined raises `KeyError`. */
  function CheckFlag(flags: map<string, FlagValue>, flagName: string, otherFlagName: string,
                     shouldBeSet: bool): (r: Result<(), FlagError>)
    ensures flagName !in flags ==> r == Err(KeyError(flagName))
    ensures flagName in flags ==> (r.Ok? <==> shouldBeSet == Truthy(flags[flagName]))
    ensures r.Err? && r.error.ValueError? ==>
      StartsWith(r.error.message, flagName + " must " + Verb(shouldBeSet) + " set")
    ensures r.Err? && r.error.KeyError? ==> r.error.name !in flags
    ensures r.Err? && r.error.KeyError? ==> r.error.name == flagName || r.error.name == otherFlagName
    ensures flagName in flags && otherFlagName in flags && shouldBeSet != Truthy(flags[flagName]) ==>
      r.Err? && r.error.ValueError?
    ensures flagName in flags && otherFlagName !in flags && shouldBeSet != Truthy(flags[flagName]) ==>
      r == Err(KeyError(otherFlagName))
    ensures r.Err? && r.error.ValueError? ==>
      otherFlagName in flags
      && EndsWith(r.error.message, " when running with \"--" + otherFlagName + "="
                                   + Display(flags[otherFlagName]) + "\".")
  {
    if flagName !in flags then Err(KeyError(flagName))
    else if shouldBeSet == Truthy(flags[flagName]) then Ok(())
    else if otherFlagName !in flags then Err(KeyError(otherFlagName))
    else
      var head := flagName + " must " + Verb(shouldBeSet) + " set";
      Err(ValueError(head + (" when running with \"--" + otherFlagName + "="
                             + Display(flags[otherFlagName]) + "\".")))
  }

  /** For a defined flag exactly one of the two expectations passes. */
  lemma CheckFlagExclusive(flags: map<string, FlagValue>, flagName: string, otherFlagName: string)
    requires flagName in flags
    ensures CheckFlag(flags, flagName, otherFlagName, true).Ok?
        != CheckFlag(flags, flagName, otherFlagName, false).Ok?
  {
  }

  // ---------------------------------------------------------------------
  // `_jnp_to_np` (run_alphafold.py:104-111)

  /** A value in a model's output dictionary. */
  datatype Value =
    | Dict(items: seq<Item>)
    | JaxArray(data: seq<int>)
    | NpArray(data: seq<int>)
    | Other(repr: string)

  /** One key-value pair of a dictionary, in insertion order. */
  datatype Item = Item(key: string, value: Value)

  /** The value with every JAX array, at any depth, turned into a NumPy array. */
  function Convert(v: Value): Value
    decreases v
  {
    match v
    case Dict(items) =>
      Dict(seq(|items|, i requires 0 <= i < |items| => Item(items[i].key, Convert(items[i].value))))
    case JaxArray(a) => NpArray(a)
    case _ => v
  }

  function Keys(items: seq<Item>): seq<string> {
    seq(|items|, i requires 0 <= i < |items| => items[i].key)
  }

  /** No JAX array anywhere in the value. */
  predicate NoJax(v: Value)
    decreases v
  {
    match v
    case Dict(items) => forall i :: 0 <= i < |items| ==> NoJax(items[i].value)
    case JaxArray(_) => false
    case _ => true
  }

  /** Rewrites the dictionary entry by entry, recursing into nested
      dictionaries. */
  method JnpToNp(items: seq<Item>) returns (r: seq<Item>)
    ensures Dict(r) == Convert(Dict(items))
    decreases Dict(items)
  {
    r := items;
    var k := 0;
    while k < |r|
      invariant 0 <= k <= |r| == |items|
      invariant forall i :: 0 <= i < k ==> r[i] == Item(items[i].key, Convert(items[i].value))
      invariant r[k..] == items[k..]
    {
      assert r[k] == items[k];
      var v := r[k].value;
      if v.Dict? {
        assert v < Dict(items) by { assert items[k] in items; }
        var inner := JnpToNp(v.items);
        r := r[k := Item(r[k].key, Dict(inner))];
      } else if v.JaxArray? {
        r := r[k := Item(r[k].key, NpArray(v.data))];
      }
      k := k + 1;
    }
  }

  /** The key sequence of every dictionary is kept, and the value contains
      no JAX array afterwards. */
  lemma {:induction false} ConvertShape(v: Value)
    ensures v.Dict? <==> Convert(v).Dict?
    ensures v.Dict? ==> Keys(Convert(v).items) == Keys(v.items)
    ensures NoJax(Convert(v))
    decreases v
  {
    match v
    case Dict(items) =>
      var c := Convert(v).items;
      forall i | 0 <= i < |items| ensures NoJax(c[i].value) {
        ConvertShape(items[i].value);
      }
    case JaxArray(_) =>
    case _ =>
  }

  /** Conversion leaves exactly the JAX-free values unchanged. */
  lemma {:induction false} ConvertFixed(v: Value)
    ensures Convert(v) == v <==> NoJax(v)
    decreases v
  {
    match v
    case Dict(items) =>
      var c := Convert(v).items;
      forall i | 0 <= i < |items| ensures c[i] == items[i] <==> NoJax(items[i].value) {
        ConvertFixed(items[i].value);
      }
      if NoJax(v) {
        assert c == items;
      }
      if Convert(v) == v {
        forall i | 0 <= i < |items| ensures NoJax(items[i].value) {
          assert c[i] == items[i];
        }
      }
    case JaxArray(_) =>
    case _ =>
  }

  /** Converting twice is converting once. */
  lemma ConvertIdempotent(v: Value)
    ensures Convert(Convert(v)) == Convert(v)
  {
    ConvertShape(v);
    ConvertFixed(Convert(v));
  }

  // ---------------------------------------------------------------------
  // Per-model seeds (run_alphafold.py:186-190)

  /** `model_index + random_seed * num_models`. */
  function ModelSeed(modelIndex: int, randomSeed: int, numModels: int): int {
    modelIndex + randomSeed * numModels
  }

  lemma {:induction false} MulAtLeast(a: int, n: int)
    requires a >= 1 && n > 0
    ensures a * n >= n
    decreases a
  {
    if a > 1 {
      MulAtLeast(a - 1, n);
      assert a * n == (a - 1) * n + n;
    }
  }

  lemma DivModUnique(x: int, n: int, q: int, r: int)
    requires n > 0 && 0 <= r < n && x == q * n + r
    ensures x / n == q && x % n == r
  {
    var q' := x / n;
    var r' := x % n;
    assert (q - q') * n == r' - r;
    if q > q' {
      MulAtLeast(q - q', n);
    } else if q < q' {
      MulAtLeast(q' - q, n);
    }
  }

  /** The seed encodes the base seed and the model index (floor division and
      modulo, as Python computes them for a positive divisor). */
  lemma ModelSeedParts(modelIndex: int, randomSeed: int, numModels: int)
    requires 0 <= modelIndex < numModels
    ensures ModelSeed(modelIndex, randomSeed, numModels) / numModels == randomSeed
    ensures ModelSeed(modelIndex, randomSeed, numModels) % numModels == modelIndex
  {
    DivModUnique(ModelSeed(modelIndex, randomSeed, numModels), numModels, randomSeed, modelIndex);
  }

  /** Different models, or different base seeds, never share a seed. */
  lemma ModelSeedInjective(i1: int, r1: int, i2: int, r2: int, numModels: int)
    requires 0 <= i1 < numModels && 0 <= i2 < numModels
    requires ModelSeed(i1, r1, numModels) == ModelSeed(i2, r2, numModels)
    ensures i1 == i2 && r1 == r2
  {
    ModelSeedParts(i1, r1, numModels);
    ModelSeedParts(i2, r2, numModels);
  }

  // ---------------------------------------------------------------------
  // Ranking (run_alphafold.py:251-253)

  /** A model name with its ranking confidence. */
  type Scored = (string, int)

  /** Inserts `x` after every entry at least as confident. */
  function InsertDesc(x: Scored, s: seq<Scored>): seq<Scored> {
    if |s| == 0 then [x]
    else if s[0].1 >= x.1 then [s[0]] + InsertDesc(x, s[1..])
    else [x] + s
  }

  /** `sorted(items, key=confidence, reverse=True)`: descending and stable. */
  function SortDesc(s: seq<Scored>): seq<Scored> {
    if |s| == 0 then [] else InsertDesc(s[|s| - 1], SortDesc(s[..|s| - 1]))
  }

  predicate Descending(s: seq<Scored>) {
    forall i, j :: 0 <= i < j < |s| ==> s[i].1 >= s[j].1
  }

  /** The entries with confidence `c`, in order. */
  function WithScore(s: seq<Scored>, c: int): seq<Scored> {
    if |s| == 0 then []
    else WithScore(s[..|s| - 1], c) + (if s[|s| - 1].1 == c then [s[|s| - 1]] else [])
  }

  lemma {:induction false} WithScoreAppend(a: seq<Scored>, b: seq<Scored>, c: int)
    ensures WithScore(a + b, c) == WithScore(a, c) + WithScore(b, c)
    decreases |b|
  {
    if |b| == 0 {
      assert a + b == a;
    } else {
      assert (a + b)[..|a + b| - 1] == a + b[..|b| - 1];
      WithScoreAppend(a, b[..|b| - 1], c);
    }
  }

  lemma {:induction false} WithScoreNone(s: seq<Scored>, c: int)
    requires forall i :: 0 <= i < |s| ==> s[i].1 < c
    ensures WithScore(s, c) == []
    decreases |s|
  {
    if |s| > 0 {
      WithScoreNone(s[..|s| - 1], c);
    }
  }

  lemma DescendingCons(h: Scored, t: seq<Scored>)
    requires Descending(t) && (|t| > 0 ==> h.1 >= t[0].1)
    ensures Descending([h] + t)
  {
    var r := [h] + t;
    forall i, j | 0 <= i < j < |r| ensures r[i].1 >= r[j].1 {
      if i == 0 {
        assert r[j] == t[j - 1];
        assert t[0].1 >= t[j - 1].1 || j == 1;
      } else {
        assert r[i] == t[i - 1] && r[j] == t[j - 1];
      }
    }
  }

  lemma InsertDescHead(x: Scored, s: seq<Scored>)
    ensures |InsertDesc(x, s)| > 0
    ensures InsertDesc(x, s)[0] == if |s| == 0 || s[0].1 < x.1 then x else s[0]
  {
  }

  lemma {:induction false} InsertDescDescending(x: Scored, s: seq<Scored>)
    requires Descending(s)
    ensures Descending(InsertDesc(x, s))
    decreases |s|
  {
    if |s| == 0 {
    } else if s[0].1 >= x.1 {
      var t := InsertDesc(x, s[1..]);
      assert Descending(s[1..]) by {
        forall i, j | 0 <= i < j < |s[1..]| ensures s[1..][i].1 >= s[1..][j].1 {
          assert s[1..][i] == s[i + 1] && s[1..][j] == s[j + 1];
        }
      }
      InsertDescDescending(x, s[1..]);
      InsertDescHead(x, s[1..]);
      if |s| > 1 { assert s[1..][0] == s[1]; }
      DescendingCons(s[0], t);
    } else {
      DescendingCons(x, s);
    }
  }

  lemma {:induction false} InsertDescPerm(x: Scored, s: seq<Scored>)
    ensures multiset(InsertDesc(x, s)) == multiset(s) + multiset{x}
    decreases |s|
  {
    if |s| > 0 {
      assert s == [s[0]] + s[1..];
      if s[0].1 >= x.1 {
        InsertDescPerm(x, s[1..]);
      }
    }
  }

  /** `x` goes in front: it is either above every entry with score `c`, or
      there is none. */
  lemma InsertDescWithScoreHere(x: Scored, s: seq<Scored>, c: int)
    requires Descending(s) && (|s| == 0 || s[0].1 < x.1)
    ensures WithScore(InsertDesc(x, s), c) == WithScore(s, c) + WithScore([x], c)
  {
    assert InsertDesc(x, s) == [x] + s;
    WithScoreAppend([x], s, c);
    if x.1 == c {
      if |s| > 0 { AllBelow(s, c); }
      WithScoreNone(s, c);
    } else {
      assert WithScore([x], c) == WithScore([], c) + [];
    }
  }

  /** Putting the same head before two sequences keeps their relation. */
  lemma WithScoreCons(h: Scored, t: seq<Scored>, u: seq<Scored>, x: Scored, c: int)
    requires WithScore(t, c) == WithScore(u, c) + WithScore([x], c)
    ensures WithScore([h] + t, c) == WithScore([h] + u, c) + WithScore([x], c)
  {
    WithScoreAppend([h], t, c);
    WithScoreAppend([h], u, c);
    var a := WithScore([h], c);
    assert a + (WithScore(u, c) + WithScore([x], c)) == (a + WithScore(u, c)) + WithScore([x], c);
  }

  /** `x` goes behind the head. */
  lemma InsertDescWithScoreBehind(x: Scored, s: seq<Scored>, c: int)
    requires |s| > 0 && s[0].1 >= x.1
    requires WithScore(InsertDesc(x, s[1..]), c) == WithScore(s[1..], c) + WithScore([x], c)
    ensures WithScore(InsertDesc(x, s), c) == WithScore(s, c) + WithScore([x], c)
  {
    assert InsertDesc(x, s) == [s[0]] + InsertDesc(x, s[1..]);
    assert [s[0]] + s[1..] == s;
    WithScoreCons(s[0], InsertDesc(x, s[1..]), s[1..], x, c);
  }

  lemma {:induction false} InsertDescWithScore(x: Scored, s: seq<Scored>, c: int)
    requires Descending(s)
    ensures WithScore(InsertDesc(x, s), c) == WithScore(s, c) + WithScore([x], c)
    decreases |s|
  {
    if |s| == 0 || s[0].1 < x.1 {
      InsertDescWithScoreHere(x, s, c);
    } else {
      DescendingTail(s);
      InsertDescWithScore(x, s[1..], c);
      InsertDescWithScoreBehind(x, s, c);
    }
  }

  lemma DescendingTail(s: seq<Scored>)
    requires Descending(s) && |s| > 0
    ensures Descending(s[1..])
  {
    forall i, j | 0 <= i < j < |s[1..]| ensures s[1..][i].1 >= s[1..][j].1 {
      assert s[1..][i] == s[i + 1] && s[1..][j] == s[j + 1];
    }
  }

  /** Below a head under `c`, every score of a descending sequence is under `c`. */
  lemma AllBelow(s: seq<Scored>, c: int)
    requires Descending(s) && |s| > 0 && s[0].1 < c
    ensures forall i :: 0 <= i < |s| ==> s[i].1 < c
  {
    forall i | 0 <= i < |s| ensures s[i].1 < c {
      assert s[0].1 >= s[i].1 || i == 0;
    }
  }

  /** The ranking is descending, a permutation of its input, and keeps the
      input order among equally confident entries. */
  lemma {:induction false} SortDescCorrect(s: seq<Scored>)
    ensures Descending(SortDesc(s))
    ensures multiset(SortDesc(s)) == multiset(s)
    ensures forall c :: WithScore(SortDesc(s), c) == WithScore(s, c)
    decreases |s|
  {
    if |s| > 0 {
      var init := s[..|s| - 1];
      SortDescCorrect(init);
      InsertDescDescending(s[|s| - 1], SortDesc(init));
      InsertDescPerm(s[|s| - 1], SortDesc(init));
      assert s == init + [s[|s| - 1]];
      forall c ensures WithScore(SortDesc(s), c) == WithScore(s, c) {
        InsertDescWithScore(s[|s| - 1], SortDesc(init), c);
        WithScoreAppend(init, [s[|s| - 1]], c);
      }
    }
  }

  /** Descending order and the per-confidence order determine the ranking. */
  lemma SortDescUnique(s: seq<Scored>, t: seq<Scored>)
    requires Descending(t)
    requires forall c :: WithScore(t, c) == WithScore(s, c)
    ensures t == SortDesc(s)
  {
    SortDescCorrect(s);
    DescendingUnique(t, SortDesc(s));
  }

  /** Two descending lists with the same entries per confidence are equal. */
  lemma {:induction false} DescendingUnique(a: seq<Scored>, b: seq<Scored>)
    requires Descending(a) && Descending(b)
    requires forall c :: WithScore(a, c) == WithScore(b, c)
    ensures a == b
    decreases |a| + |b|
  {
    if |a| == 0 || |b| == 0 {
      if |b| > 0 { WithScoreLast(b); }
      if |a| > 0 { WithScoreLast(a); }
    } else {
      LastsEqual(a, b);
      var x := a[|a| - 1];
      var a' := a[..|a| - 1];
      var b' := b[..|b| - 1];
      assert a == a' + [x] && b == b' + [x];
      forall c ensures WithScore(a', c) == WithScore(b', c) {
        WithScoreAppend(a', [x], c);
        WithScoreAppend(b', [x], c);
        var wa, wb, wx := WithScore(a', c), WithScore(b', c), WithScore([x], c);
        assert wa + wx == wb + wx;
        assert wa == (wa + wx)[..|wa|] && wb == (wb + wx)[..|wb|];
      }
      DescendingPrefix(a);
      DescendingPrefix(b);
      DescendingUnique(a', b');
    }
  }

  lemma DescendingPrefix(s: seq<Scored>)
    requires Descending(s) && |s| > 0
    ensures Descending(s[..|s| - 1])
  {
    var p := s[..|s| - 1];
    forall i, j | 0 <= i < j < |p| ensures p[i].1 >= p[j].1 {
      assert p[i] == s[i] && p[j] == s[j];
    }
  }

  /** Equal per-confidence orders make the last entries equal. */
  lemma LastsEqual(a: seq<Scored>, b: seq<Scored>)
    requires Descending(a) && Descending(b) && |a| > 0 && |b| > 0
    requires forall c :: WithScore(a, c) == WithScore(b, c)
    ensures a[|a| - 1] == b[|b| - 1]
  {
    var x := a[|a| - 1];
    var y := b[|b| - 1];
    WithScoreLast(a);
    WithScoreLast(b);
    if x.1 < y.1 {
      DescendingBelow(b, x.1);
    } else if y.1 < x.1 {
      DescendingBelow(a, y.1);
    }
    var wa := WithScore(a, x.1);
    var wb := WithScore(b, y.1);
    assert wa == wb;
  }

  lemma WithScoreLast(s: seq<Scored>)
    requires |s| > 0
    ensures |WithScore(s, s[|s| - 1].1)| > 0
    ensures WithScore(s, s[|s| - 1].1)[|WithScore(s, s[|s| - 1].1)| - 1] == s[|s| - 1]
  {
  }

  /** A descending list all of whose entries beat `c` has none with confidence `c`. */
  lemma DescendingBelow(s: seq<Scored>, c: int)
    requires Descending(s) && |s| > 0 && s[|s| - 1].1 > c
    ensures WithScore(s, c) == []
  {
    forall i | 0 <= i < |s| ensures s[i].1 != c {
      assert s[i].1 >= s[|s| - 1].1;
    }
    WithScoreAbsent(s, c);
  }

  lemma {:induction false} WithScoreAbsent(s: seq<Scored>, c: int)
    requires forall i :: 0 <= i < |s| ==> s[i].1 != c
    ensures WithScore(s, c) == []
    decreases |s|
  {
    if |s| > 0 {
      WithScoreAbsent(s[..|s| - 1], c);
    }
  }

  function Names(s: seq<Scored>): seq<string> {
    seq(|s|, i requires 0 <= i < |s| => s[i].0)
  }

  /** `ranked_order`: the model names by non-increasing confidence. */
  function RankedOrder(items: seq<Scored>): seq<string> {
    Names(SortDesc(items))
  }

  lemma {:induction false} NamesInsertDesc(x: Scored, s: seq<Scored>)
    ensures multiset(Names(InsertDesc(x, s))) == multiset(Names(s)) + multiset{x.0}
    decreases |s|
  {
    if |s| == 0 {
      NamesCons(x, []);
    } else {
      NamesCons(s[0], s[1..]);
      assert [s[0]] + s[1..] == s;
      if s[0].1 >= x.1 {
        NamesInsertDesc(x, s[1..]);
        NamesCons(s[0], InsertDesc(x, s[1..]));
      } else {
        NamesCons(x, s);
      }
    }
  }

  lemma NamesCons(h: Scored, t: seq<Scored>)
    ensures Names([h] + t) == [h.0] + Names(t)
  {
  }

  /** `ranked_order` lists every model name once for each time it was scored. */
  lemma {:induction false} RankedOrderPermutes(s: seq<Scored>)
    ensures multiset(RankedOrder(s)) == multiset(Names(s))
    decreases |s|
  {
    if |s| > 0 {
      var init := s[..|s| - 1];
      RankedOrderPermutes(init);
      NamesInsertDesc(s[|s| - 1], SortDesc(init));
      assert Names(s) == Names(init) + [s[|s| - 1].0];
    }
  }

  /** The most confident model heads the ranking; among equally confident
      ones, the first scored. */
  lemma RankedOrderHead(s: seq<Scored>)
    requires |s| > 0
    ensures exists j :: (0 <= j < |s| && RankedOrder(s)[0] == s[j].0
      && (forall k :: 0 <= k < |s| ==> s[k].1 <= s[j].1)
      && (forall k :: 0 <= k < j ==> s[k].1 < s[j].1))
  {
    var t := SortDesc(s);
    var j0 := SortedHeadIn(s);
    SortedHeadMax(s);
    var c := t[0].1;
    var j := FirstWithScore(s, c, j0);
    SortedHeadFirst(s, j);
    assert RankedOrder(s)[0] == t[0].0;
  }

  lemma SortedHeadIn(s: seq<Scored>) returns (j0: int)
    requires |s| > 0
    ensures |SortDesc(s)| > 0 && 0 <= j0 < |s| && s[j0] == SortDesc(s)[0]
  {
    var t := SortDesc(s);
    SortDescCorrect(s);
    assert |t| > 0 by { assert |multiset(t)| == |multiset(s)|; }
    assert t[0] in multiset(s) by { assert t[0] in multiset(t); }
    j0 :| 0 <= j0 < |s| && s[j0] == t[0];
  }

  lemma SortedHeadMax(s: seq<Scored>)
    requires |SortDesc(s)| > 0
    ensures forall k :: 0 <= k < |s| ==> s[k].1 <= SortDesc(s)[0].1
  {
    var t := SortDesc(s);
    SortDescCorrect(s);
    forall k | 0 <= k < |s| ensures s[k].1 <= t[0].1 {
      assert s[k] in multiset(t) by { assert s[k] in multiset(s); }
      var m :| 0 <= m < |t| && t[m] == s[k];
      assert m == 0 || t[0].1 >= t[m].1;
    }
  }

  lemma SortedHeadFirst(s: seq<Scored>, j: int)
    requires |SortDesc(s)| > 0
    requires 0 <= j < |s| && s[j].1 == SortDesc(s)[0].1
    requires forall k :: 0 <= k < j ==> s[k].1 != s[j].1
    ensures s[j] == SortDesc(s)[0]
  {
    var t := SortDesc(s);
    var c := t[0].1;
    SortDescCorrect(s);
    assert WithScore(t, c) == [t[0]] + WithScore(t[1..], c) by {
      assert t == [t[0]] + t[1..];
      WithScoreAppend([t[0]], t[1..], c);
    }
    WithScoreAt(s, j, c);
  }

  /** The first index of `s` with confidence `c`, given one such index. */
  lemma FirstWithScore(s: seq<Scored>, c: int, j0: int) returns (j: int)
    requires 0 <= j0 < |s| && s[j0].1 == c
    ensures 0 <= j <= j0 && s[j].1 == c && forall k :: 0 <= k < j ==> s[k].1 != c
    decreases j0
  {
    if k :| 0 <= k < j0 && s[k].1 == c {
      j := FirstWithScore(s, c, k);
    } else {
      j := j0;
    }
  }

  /** If `j` is the first index with confidence `c`, `s[j]` heads `WithScore(s, c)`. */
  lemma WithScoreAt(s: seq<Scored>, j: int, c: int)
    requires 0 <= j < |s| && s[j].1 == c && forall k :: 0 <= k < j ==> s[k].1 != c
    ensures |WithScore(s, c)| > 0 && WithScore(s, c)[0] == s[j]
  {
    assert s == s[..j] + ([s[j]] + s[j + 1..]);
    WithScoreAppend(s[..j], [s[j]] + s[j + 1..], c);
    WithScoreAppend([s[j]], s[j + 1..], c);
    WithScoreAbsent(s[..j], c);
  }

  // ---------------------------------------------------------------------
  // Relaxation and outputs (run_alphafold.py:178-304)

  datatype ModelsToRelax = ALL | BEST | NONE

  /** `to_relax`; `ranked_order[0]` raises `IndexError` when no model ran. */
  function ToRelax(mode: ModelsToRelax, order: seq<string>): (r: Result<seq<string>, string>)
    ensures r.Ok? ==> forall m :: m in r.value ==> m in order
    ensures r.Err? <==> mode == BEST && |order| == 0
  {
    if mode == BEST then (if |order| == 0 then Err("IndexError") else Ok([order[0]]))
    else if mode == ALL then Ok(order)
    else Ok([])
  }

  /** What one model run gives: its output dictionary, its ranking
      confidence and the PDB text of its unrelaxed structure. */
  datatype Prediction = Prediction(result: seq<Item>, confidence: int, pdb: string)

  /** What the relaxer gives for one structure. */
  datatype Relaxation = Relaxation(pdb: string, violations: seq<int>)

  /** One entry of `relax_metrics`. */
  datatype Metrics = Metrics(violations: seq<int>, count: int)

  /** What the driver leaves behind: the seed of each model, the converted
      `result_<m>.pkl` dictionaries, the confidences, the `unrelaxed_<m>.pdb`
      and `relaxed_<m>.pdb` texts, `ranked_order`, the relax metrics, the
      `ranked_<i>.pdb` texts, the key of the confidences in `ranking_debug.json` and whether
      `relax_metrics.json` is written. */
  datatype Outputs = Outputs(
    seeds: seq<int>,
    results: map<string, seq<Item>>,
    confidences: map<string, int>,
    unrelaxed: map<string, string>,
    rankedOrder: seq<string>,
    relaxed: map<string, string>,
    metrics: map<string, Metrics>,
    ranked: seq<string>,
    debugKey: string,
    metricsWritten: bool)

  /** `sum(values)`. */
  function Sum(v: seq<int>): int {
    if |v| == 0 then 0 else Sum(v[..|v| - 1]) + v[|v| - 1]
  }

  /** Summing 0/1 violation flags counts the flagged residues. */
  lemma {:induction false} SumOfFlags(v: seq<int>)
    requires forall i :: 0 <= i < |v| ==> v[i] == 0 || v[i] == 1
    ensures 0 <= Sum(v) <= |v|
    ensures Sum(v) == |v| <==> forall i :: 0 <= i < |v| ==> v[i] == 1
    decreases |v|
  {
    if |v| > 0 {
      var init := v[..|v| - 1];
      SumOfFlags(init);
      if Sum(v) == |v| {
        forall i | 0 <= i < |v| ensures v[i] == 1 {
          if i < |v| - 1 { assert v[i] == init[i]; }
        }
      }
      if forall i :: 0 <= i < |v| ==> v[i] == 1 {
        assert forall i :: 0 <= i < |init| ==> init[i] == 1 by {
          forall i | 0 <= i < |init| ensures init[i] == 1 { assert init[i] == v[i]; }
        }
      }
    }
  }

  /** The run of model `i`, with its seed. */
  function Run(names: seq<string>, randomSeed: int, predict: (string, int) -> Prediction, i: int): Prediction
    requires 0 <= i < |names|
  {
    predict(names[i], ModelSeed(i, randomSeed, |names|))
  }

  /** `ranking_confidences.items()`, in model order. */
  function Scores(names: seq<string>, randomSeed: int, predict: (string, int) -> Prediction): seq<Scored> {
    seq(|names|, i requires 0 <= i < |names| => (names[i], Run(names, randomSeed, predict, i).confidence))
  }

  /** `relaxed_pdbs`. */
  function RelaxedPdbs(toRelax: seq<string>, unrelaxed: map<string, string>,
                       relax: string -> Relaxation): map<string, string>
    requires forall m :: m in toRelax ==> m in unrelaxed
  {
    map m | m in toRelax :: relax(unrelaxed[m]).pdb
  }

  /** `relax_metrics`: each model's violations and their sum. */
  function RelaxMetrics(toRelax: seq<string>, unrelaxed: map<string, string>,
                        relax: string -> Relaxation): map<string, Metrics>
    requires forall m :: m in toRelax ==> m in unrelaxed
  {
    map m | m in toRelax :: Metrics(relax(unrelaxed[m]).violations, Sum(relax(unrelaxed[m]).violations))
  }

  /** The `ranked_<i>.pdb` texts: the relaxed structure when there is one. */
  function RankedPdbs(order: seq<string>, relaxed: map<string, string>, unrelaxed: map<string, string>): seq<string>
    requires forall m :: m in order ==> m in unrelaxed
  {
    seq(|order|, i requires 0 <= i < |order| =>
      if order[i] in relaxed then relaxed[order[i]] else unrelaxed[order[i]])
  }

  /** The key of the confidences in `ranking_debug.json`, taken from the
      last model's output. */
  function Label(lastResult: seq<Item>): string {
    if "iptm" in Keys(lastResult) then "iptm+ptm" else "plddts"
  }

  /** `ranked_<i>` is relaxed exactly for every model under `ALL`, for the
      top model under `BEST` and for none under `NONE`. */
  lemma RankedChoice(mode: ModelsToRelax, order: seq<string>, unrelaxed: map<string, string>,
                     relax: string -> Relaxation, i: int)
    requires Distinct(order) && forall m :: m in order ==> m in unrelaxed
    requires ToRelax(mode, order).Ok? && 0 <= i < |order|
    ensures RankedPdbs(order, RelaxedPdbs(ToRelax(mode, order).value, unrelaxed, relax), unrelaxed)[i]
         == if mode == ALL || (mode == BEST && i == 0) then relax(unrelaxed[order[i]]).pdb
            else unrelaxed[order[i]]
  {
    var relaxed := RelaxedPdbs(ToRelax(mode, order).value, unrelaxed, relax);
    if mode == BEST && i > 0 {
      assert order[i] != order[0];
      assert order[i] !in relaxed;
    }
    if mode == ALL {
      assert order[i] in order;
    }
  }

  /** The per-model part of the outputs. */
  ghost predicate ModelOutputs(names: seq<string>, randomSeed: int, predict: (string, int) -> Prediction,
                               o: Outputs)
  {
    |o.seeds| == |names|
    && (forall j :: 0 <= j < |names| ==> o.seeds[j] == ModelSeed(j, randomSeed, |names|))
    && (forall m :: m in o.confidences <==> m in names)
    && (forall m :: m in o.unrelaxed <==> m in names)
    && (forall m :: m in o.results <==> m in names)
    && (forall j :: 0 <= j < |names| ==>
          o.confidences[names[j]] == Run(names, randomSeed, predict, j).confidence
          && o.unrelaxed[names[j]] == Run(names, randomSeed, predict, j).pdb
          && Dict(o.results[names[j]]) == Convert(Dict(Run(names, randomSeed, predict, j).result)))
  }

  /** The model loop's records do not depend on the later outputs. */
  lemma ModelOutputsKept(names: seq<string>, randomSeed: int, predict: (string, int) -> Prediction,
                         o: Outputs, o': Outputs)
    requires ModelOutputs(names, randomSeed, predict, o)
    requires o'.seeds == o.seeds && o'.results == o.results
    requires o'.confidences == o.confidences && o'.unrelaxed == o.unrelaxed
    ensures ModelOutputs(names, randomSeed, predict, o')
  {
  }

  lemma ScoresNames(names: seq<string>, randomSeed: int, predict: (string, int) -> Prediction)
    ensures Names(Scores(names, randomSeed, predict)) == names
  {
  }

  /** The ranking is a permutation of the model names. */
  lemma RankedModels(names: seq<string>, randomSeed: int, predict: (string, int) -> Prediction)
    requires Distinct(names)
    ensures multiset(RankedOrder(Scores(names, randomSeed, predict))) == multiset(names)
    ensures Distinct(RankedOrder(Scores(names, randomSeed, predict)))
    ensures forall m :: m in RankedOrder(Scores(names, randomSeed, predict)) <==> m in names
  {
    var order := RankedOrder(Scores(names, randomSeed, predict));
    ScoresNames(names, randomSeed, predict);
    RankedOrderPermutes(Scores(names, randomSeed, predict));
    forall m ensures m in order <==> m in names {
      assert m in order <==> m in multiset(order);
      assert m in names <==> m in multiset(names);
    }
    forall i, j | 0 <= i < j < |order| ensures order[i] != order[j] {
      if order[i] == order[j] {
        RepeatCount(order, i, j);
        DistinctCount(names, order[i]);
      }
    }
  }

  /** The whole outputs of a run that ranked at least one model. */
  ghost predicate Produced(names: seq<string>, randomSeed: int, mode: ModelsToRelax,
                           predict: (string, int) -> Prediction, relax: string -> Relaxation, o: Outputs)
    requires |names| > 0
  {
    var order := RankedOrder(Scores(names, randomSeed, predict));
    ModelOutputs(names, randomSeed, predict, o)
    && o.rankedOrder == order
    && ToRelax(mode, order).Ok?
    && (forall m :: m in ToRelax(mode, order).value ==> m in o.unrelaxed)
    && o.relaxed == RelaxedPdbs(ToRelax(mode, order).value, o.unrelaxed, relax)
    && o.metrics == RelaxMetrics(ToRelax(mode, order).value, o.unrelaxed, relax)
    && (forall m :: m in order ==> m in o.unrelaxed)
    && o.ranked == RankedPdbs(order, o.relaxed, o.unrelaxed)
    && o.debugKey == Label(Run(names, randomSeed, predict, |names| - 1).result)
    && o.metricsWritten == (mode != NONE)
  }

  /** The converted entries of a model's output dictionary. */
  function ConvertedItems(items: seq<Item>): seq<Item> {
    Convert(Dict(items)).items
  }

  /** `ranking_confidences` after the first `i` models ran. */
  function ConfidencesUpTo(names: seq<string>, randomSeed: int, predict: (string, int) -> Prediction,
                           i: nat): map<string, int>
    requires i <= |names|
  {
    if i == 0 then map[]
    else ConfidencesUpTo(names, randomSeed, predict, i - 1)[names[i - 1] := Run(names, randomSeed, predict, i - 1).confidence]
  }

  /** `unrelaxed_pdbs` after the first `i` models ran. */
  function UnrelaxedUpTo(names: seq<string>, randomSeed: int, predict: (string, int) -> Prediction,
                         i: nat): map<string, string>
    requires i <= |names|
  {
    if i == 0 then map[]
    else UnrelaxedUpTo(names, randomSeed, predict, i - 1)[names[i - 1] := Run(names, randomSeed, predict, i - 1).pdb]
  }

  /** The converted `prediction_result`s after the first `i` models ran. */
  function ResultsUpTo(names: seq<string>, randomSeed: int, predict: (string, int) -> Prediction,
                       i: nat): map<string, seq<Item>>
    requires i <= |names|
  {
    if i == 0 then map[]
    else ResultsUpTo(names, randomSeed, predict, i - 1)[names[i - 1] := ConvertedItems(Run(names, randomSeed, predict, i - 1).result)]
  }

  /** The first `i` names, as a set. */
  function KeysUpTo(names: seq<string>, i: nat): set<string>
    requires i <= |names|
  {
    if i == 0 then {} else KeysUpTo(names, i - 1) + {names[i - 1]}
  }

  lemma {:induction false} KeysUpToAll(names: seq<string>, i: nat)
    requires i <= |names|
    ensures forall m :: m in KeysUpTo(names, i) <==> m in names[..i]
  {
    if i > 0 {
      KeysUpToAll(names, i - 1);
      assert names[..i] == names[..i - 1] + [names[i - 1]];
    }
  }

  lemma {:induction false} ConfidencesKeys(names: seq<string>, randomSeed: int, predict: (string, int) -> Prediction,
                                        i: nat)
    requires i <= |names|
    ensures ConfidencesUpTo(names, randomSeed, predict, i).Keys == KeysUpTo(names, i)
  {
    if i > 0 {
      ConfidencesKeys(names, randomSeed, predict, i - 1);
    }
  }

  /** With distinct names, each of the first `i` models' confidence is its own. */
  lemma {:induction false} ConfidencesValues(names: seq<string>, randomSeed: int, predict: (string, int) -> Prediction,
                                          i: nat)
    requires Distinct(names) && i <= |names|
    ensures forall j :: 0 <= j < i ==>
      names[j] in ConfidencesUpTo(names, randomSeed, predict, i)
      && ConfidencesUpTo(names, randomSeed, predict, i)[names[j]] == Run(names, randomSeed, predict, j).confidence
  {
    if i > 0 {
      ConfidencesValues(names, randomSeed, predict, i - 1);
      forall j | 0 <= j < i - 1 ensures names[j] != names[i - 1] { }
    }
  }

  lemma {:induction false} UnrelaxedKeys(names: seq<string>, randomSeed: int, predict: (string, int) -> Prediction,
                                        i: nat)
    requires i <= |names|
    ensures UnrelaxedUpTo(names, randomSeed, predict, i).Keys == KeysUpTo(names, i)
  {
    if i > 0 {
      UnrelaxedKeys(names, randomSeed, predict, i - 1);
    }
  }

  /** With distinct names, each of the first `i` models' structure is its own. */
  lemma {:induction false} UnrelaxedValues(names: seq<string>, randomSeed: int, predict: (string, int) -> Prediction,
                                          i: nat)
    requires Distinct(names) && i <= |names|
    ensures forall j :: 0 <= j < i ==>
      names[j] in UnrelaxedUpTo(names, randomSeed, predict, i)
      && UnrelaxedUpTo(names, randomSeed, predict, i)[names[j]] == Run(names, randomSeed, predict, j).pdb
  {
    if i > 0 {
      UnrelaxedValues(names, randomSeed, predict, i - 1);
      forall j | 0 <= j < i - 1 ensures names[j] != names[i - 1] { }
    }
  }

  lemma {:induction false} ResultsKeys(names: seq<string>, randomSeed: int, predict: (string, int) -> Prediction,
                                        i: nat)
    requires i <= |names|
    ensures ResultsUpTo(names, randomSeed, predict, i).Keys == KeysUpTo(names, i)
  {
    if i > 0 {
      ResultsKeys(names, randomSeed, predict, i - 1);
    }
  }

  /** With distinct names, each of the first `i` models' converted output is its own. */
  lemma {:induction false} ResultsValues(names: seq<string>, randomSeed: int, predict: (string, int) -> Prediction,
                                          i: nat)
    requires Distinct(names) && i <= |names|
    ensures forall j :: 0 <= j < i ==>
      names[j] in ResultsUpTo(names, randomSeed, predict, i)
      && ResultsUpTo(names, randomSeed, predict, i)[names[j]] == ConvertedItems(Run(names, randomSeed, predict, j).result)
  {
    if i > 0 {
      ResultsValues(names, randomSeed, predict, i - 1);
      forall j | 0 <= j < i - 1 ensures names[j] != names[i - 1] { }
    }
  }

  /** The seeds of the first `i` of `n` models. */
  function Seeds(i: nat, randomSeed: int, n: int): seq<int>
  {
    if i == 0 then [] else Seeds(i - 1, randomSeed, n) + [ModelSeed(i - 1, randomSeed, n)]
  }

  lemma {:induction false} SeedsEntries(i: nat, randomSeed: int, n: int)
    ensures |Seeds(i, randomSeed, n)| == i
    ensures forall j :: 0 <= j < i ==> Seeds(i, randomSeed, n)[j] == ModelSeed(j, randomSeed, n)
  {
    if i > 0 {
      SeedsEntries(i - 1, randomSeed, n);
    }
  }

  /** The model loop (run_alphafold.py:185-248): each model runs with its
      own seed, and its confidence, converted output and unrelaxed structure
      are recorded under its name. */
  method RunModels(names: seq<string>, randomSeed: int, predict: (string, int) -> Prediction)
    returns (o: Outputs, scored: seq<Scored>, lastResult: seq<Item>)
    requires Distinct(names)
    ensures ModelOutputs(names, randomSeed, predict, o)
    ensures scored == Scores(names, randomSeed, predict)
    ensures |names| > 0 ==> lastResult == Run(names, randomSeed, predict, |names| - 1).result
  {
    var n := |names|;
    var seeds: seq<int> := [];
    var confidences: map<string, int> := map[];
    var results: map<string, seq<Item>> := map[];
    var unrelaxed: map<string, string> := map[];
    scored := [];
    lastResult := [];
    var i := 0;
    while i < n
      invariant 0 <= i <= n
      invariant seeds == Seeds(i, randomSeed, n)
      invariant scored == Scores(names, randomSeed, predict)[..i]
      invariant confidences == ConfidencesUpTo(names, randomSeed, predict, i)
      invariant unrelaxed == UnrelaxedUpTo(names, randomSeed, predict, i)
      invariant results == ResultsUpTo(names, randomSeed, predict, i)
      invariant i > 0 ==> lastResult == Run(names, randomSeed, predict, i - 1).result
    {
      var seed := ModelSeed(i, randomSeed, n);
      var prediction := predict(names[i], seed);
      var converted := JnpToNp(prediction.result);
      assert Scores(names, randomSeed, predict)[..i + 1]
          == Scores(names, randomSeed, predict)[..i] + [(names[i], prediction.confidence)];
      seeds := seeds + [seed];
      confidences := confidences[names[i] := prediction.confidence];
      results := results[names[i] := converted];
      unrelaxed := unrelaxed[names[i] := prediction.pdb];
      scored := scored + [(names[i], prediction.confidence)];
      lastResult := prediction.result;
      i := i + 1;
    }
    o := Outputs(seeds, results, confidences, unrelaxed, [], map[], map[], [], "", false);
    AllModelsRun(names, randomSeed, predict, o);
  }

  /** What the model loop has recorded once every model ran. */
  lemma AllModelsRun(names: seq<string>, randomSeed: int, predict: (string, int) -> Prediction, o: Outputs)
    requires Distinct(names)
    requires o.seeds == Seeds(|names|, randomSeed, |names|)
    requires o.confidences == ConfidencesUpTo(names, randomSeed, predict, |names|)
    requires o.unrelaxed == UnrelaxedUpTo(names, randomSeed, predict, |names|)
    requires o.results == ResultsUpTo(names, randomSeed, predict, |names|)
    ensures ModelOutputs(names, randomSeed, predict, o)
  {
    SeedsEntries(|names|, randomSeed, |names|);
    KeysUpToAll(names, |names|);
    ConfidencesKeys(names, randomSeed, predict, |names|);
    UnrelaxedKeys(names, randomSeed, predict, |names|);
    ResultsKeys(names, randomSeed, predict, |names|);
    ConfidencesValues(names, randomSeed, predict, |names|);
    UnrelaxedValues(names, randomSeed, predict, |names|);
    ResultsValues(names, randomSeed, predict, |names|);
    assert names[..|names|] == names;
  }

  /** The relaxation loop (run_alphafold.py:264-279). */
  method RelaxModels(toRelax: seq<string>, unrelaxed: map<string, string>, relax: string -> Relaxation)
    returns (relaxed: map<string, string>, metrics: map<string, Metrics>)
    requires forall m :: m in toRelax ==> m in unrelaxed
    ensures relaxed == RelaxedPdbs(toRelax, unrelaxed, relax)
    ensures metrics == RelaxMetrics(toRelax, unrelaxed, relax)
  {
    relaxed := map[];
    metrics := map[];
    var k := 0;
    while k < |toRelax|
      invariant 0 <= k <= |toRelax|
      invariant relaxed == RelaxedPdbs(toRelax[..k], unrelaxed, relax)
      invariant metrics == RelaxMetrics(toRelax[..k], unrelaxed, relax)
    {
      var m := toRelax[k];
      var relaxation := relax(unrelaxed[m]);
      assert toRelax[..k + 1] == toRelax[..k] + [m];
      metrics := metrics[m := Metrics(relaxation.violations, Sum(relaxation.violations))];
      relaxed := relaxed[m := relaxation.pdb];
      k := k + 1;
    }
    assert toRelax[..k] == toRelax;
  }

  /** The ranked-output loop (run_alphafold.py:282-288). */
  method RankModels(order: seq<string>, relaxed: map<string, string>, unrelaxed: map<string, string>)
    returns (ranked: seq<string>)
    requires forall m :: m in order ==> m in unrelaxed
    ensures ranked == RankedPdbs(order, relaxed, unrelaxed)
  {
    ranked := [];
    var idx := 0;
    while idx < |order|
      invariant 0 <= idx <= |order|
      invariant ranked == RankedPdbs(order, relaxed, unrelaxed)[..idx]
    {
      var m := order[idx];
      assert m in order;
      ranked := ranked + [if m in relaxed then relaxed[m] else unrelaxed[m]];
      idx := idx + 1;
    }
  }

  /** The outcome of `predict_structure` for the models `names` (the keys of
      `model_runners`, in order), with `predict` standing for feature
      processing and prediction with a seed and `relax` for the relaxer. */
  method PredictStructure(names: seq<string>, randomSeed: int, mode: ModelsToRelax,
                          predict: (string, int) -> Prediction, relax: string -> Relaxation)
    returns (r: Result<Outputs, string>)
    requires Distinct(names)
    ensures |names| == 0 ==> r == Err(if mode == BEST then "IndexError" else "UnboundLocalError")
    ensures |names| > 0 ==> r.Ok? && Produced(names, randomSeed, mode, predict, relax, r.value)
  {
    var o, scored, lastResult := RunModels(names, randomSeed, predict);
    RankedModels(names, randomSeed, predict);
    var order := RankedOrder(scored);
    assert forall m :: m in order ==> m in o.unrelaxed;
    var toRelax: seq<string>;
    if mode == BEST {
      if |order| == 0 {
        return Err("IndexError");
      }
      toRelax := [order[0]];
    } else if mode == ALL {
      toRelax := order;
    } else {
      toRelax := [];
    }
    assert ToRelax(mode, order) == Ok(toRelax);
    var relaxed, metrics := RelaxModels(toRelax, o.unrelaxed, relax);
    var ranked := RankModels(order, relaxed, o.unrelaxed);
    if |names| == 0 {
      return Err("UnboundLocalError");
    }
    var o' := o.(rankedOrder := order, relaxed := relaxed, metrics := metrics, ranked := ranked,
                 debugKey := Label(lastResult), metricsWritten := mode != NONE);
    ModelOutputsKept(names, randomSeed, predict, o, o');
    r := Ok(o');
  }
}
