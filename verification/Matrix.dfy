/** The expansion of one matrix stage (api/pkg/engine/matrix.go, ExpandMatrix and what it calls). Matrix values
    are scalars, compared by `==` or by their text.

    `Product` is the product of the dimensions over the sorted keys, and the mixed-radix digits of a position
    say which value each dimension has there. The loops of `Cartesian` are proved to build that product, the
    in-place filter to keep what no exclude matches, and `SuffixInjective` that an instance id determines
    its stage and its position. */
module Matrix {
  import opened Sequences
  import opened Strings
  import opened Pipelines

  type Combo = map<string, Value>

  // ---- The cartesian product ----

  /** Every combination of `combos` extended by every value of one more key, the values varying fastest. */
  function Extended(combos: seq<Combo>, key: string, vals: seq<Value>): (r: seq<Combo>)
    ensures |r| == |combos| * |vals|
  {
    if combos == [] then []
    else
      Extended(combos[..|combos| - 1], key, vals) +
      seq(|vals|, i requires 0 <= i < |vals| => combos[|combos| - 1][key := vals[i]])
  }

  function Product(dims: map<string, seq<Value>>, keys: seq<string>): seq<Combo>
    requires forall k :: k in keys ==> k in dims
  {
    if keys == [] then [map[]]
    else Extended(Product(dims, keys[..|keys| - 1]), keys[|keys| - 1], dims[keys[|keys| - 1]])
  }

  predicate Internal(key: string) {
    |key| >= 2 && key[..2] == "__"
  }

  predicate HasEmptyDimension(dims: map<string, seq<Value>>) {
    exists k :: k in dims && !Internal(k) && dims[k] == []
  }

  function Axes(dims: map<string, seq<Value>>): set<string> {
    set k | k in dims && !Internal(k)
  }

  /** The combinations of the dimensions, with the keys in alphabetical order. */
  ghost function AllCombos(dims: map<string, seq<Value>>): seq<Combo> {
    if dims == map[] then [] else Product(dims, Listed(Axes(dims)))
  }

  /** None stands for the "dimension is empty" error. */
  method Cartesian(dims: map<string, seq<Value>>) returns (r: Option<seq<Combo>>)
    ensures r == if HasEmptyDimension(dims) then None else Some(AllCombos(dims))
  {
    if |dims| == 0 {
      assert dims == map[];
      return Some([]);
    }
    var unsorted: seq<string> := [];
    var empty := false;
    var todo := dims.Keys;
    while todo != {}
      invariant todo <= dims.Keys
      invariant Distinct(unsorted)
      invariant forall k :: k in unsorted <==> k in dims && k !in todo && !Internal(k)
      invariant empty <==> exists k :: k in dims && k !in todo && !Internal(k) && dims[k] == []
      decreases todo
    {
      var k :| k in todo;
      todo := todo - {k};
      if Internal(k) {
        continue;
      }
      if |dims[k]| == 0 {
        empty := true;
      }
      assert k !in unsorted;
      unsorted := unsorted + [k];
    }
    SortMembers(unsorted);
    var order := Sort(unsorted);
    ListedOnly(order, Axes(dims));
    if empty {
      return None;
    }
    var combos: seq<Combo> := [map[]];
    for j := 0 to |order|
      invariant combos == Product(dims, order[..j])
    {
      combos := ExtendAll(combos, order[j], dims[order[j]]);
      assert order[..j + 1][..j] == order[..j];
    }
    assert order[..|order|] == order;
    return Some(combos);
  }

  method ExtendAll(combos: seq<Combo>, key: string, vals: seq<Value>) returns (next: seq<Combo>)
    ensures next == Extended(combos, key, vals)
  {
    next := [];
    for i := 0 to |combos|
      invariant next == Extended(combos[..i], key, vals)
    {
      var row: seq<Combo> := [];
      for m := 0 to |vals|
        invariant row == seq(m, v requires 0 <= v < m => combos[i][key := vals[v]])
      {
        row := row + [combos[i][key := vals[m]]];
      }
      next := next + row;
      assert combos[..i + 1][..i] == combos[..i];
    }
    assert combos[..|combos|] == combos;
  }

  /** The product of the dimension sizes. */
  function Size(dims: map<string, seq<Value>>, keys: seq<string>): nat
    requires forall k :: k in keys ==> k in dims
  {
    if keys == [] then 1 else Size(dims, keys[..|keys| - 1]) * |dims[keys[|keys| - 1]]|
  }

  function Quotient(i: nat, base: nat): nat
    requires base > 0
  {
    i / base
  }

  function Remainder(i: nat, base: nat): (r: nat)
    requires base > 0
    ensures r < base
  {
    i % base
  }

  /** The mixed-radix digits of `i`, one for each key; the last key is the least significant. */
  function Digits(dims: map<string, seq<Value>>, keys: seq<string>, i: nat): (r: seq<nat>)
    requires forall k :: k in keys ==> k in dims && dims[k] != []
    ensures |r| == |keys| && forall j :: 0 <= j < |r| ==> r[j] < |dims[keys[j]]|
  {
    if keys == [] then []
    else
      var base := |dims[keys[|keys| - 1]]|;
      Digits(dims, keys[..|keys| - 1], Quotient(i, base)) + [Remainder(i, base)]
  }

  /** The number with the given digits. */
  function Number(dims: map<string, seq<Value>>, keys: seq<string>, digits: seq<nat>): nat
    requires |digits| == |keys| && forall k :: k in keys ==> k in dims
  {
    if keys == [] then 0
    else
      var n := |keys| - 1;
      Number(dims, keys[..n], digits[..n]) * |dims[keys[n]]| + digits[n]
  }

  lemma {:induction false} NumberOfDigits(dims: map<string, seq<Value>>, keys: seq<string>, i: nat)
    requires forall k :: k in keys ==> k in dims && dims[k] != []
    requires i < Size(dims, keys)
    ensures Number(dims, keys, Digits(dims, keys, i)) == i
  {
    if keys != [] {
      var n := |keys| - 1;
      var base := |dims[keys[n]]|;
      hide Quotient, Remainder;
      QuotientBelow(i, base, Size(dims, keys[..n]));
      NumberOfDigits(dims, keys[..n], Quotient(i, base));
      assert Digits(dims, keys, i)[..n] == Digits(dims, keys[..n], Quotient(i, base));
    }
  }

  lemma QuotientBelow(i: nat, m: nat, n: nat)
    requires m > 0 && i < n * m
    ensures Quotient(i, m) < n
    ensures i == Quotient(i, m) * m + Remainder(i, m)
  {
    assert (i / m) * m <= i;
    assert (n - i / m) * m > 0;
  }

  lemma {:induction false} ExtendedAt(combos: seq<Combo>, key: string, vals: seq<Value>, a: nat, b: nat)
    requires a < |combos| && b < |vals|
    ensures a * |vals| + b < |combos| * |vals|
    ensures Extended(combos, key, vals)[a * |vals| + b] == combos[a][key := vals[b]]
  {
    var n, m := |combos| - 1, |vals|;
    assert (n + 1) * m == n * m + m;
    if a < n {
      ExtendedAt(combos[..n], key, vals, a, b);
    }
  }

  /** The combination takes, for every key, the value that the digit selects. */
  ghost predicate Selects(dims: map<string, seq<Value>>, keys: seq<string>, digits: seq<nat>, c: Combo) {
    && |digits| == |keys|
    && c.Keys == Elements(keys)
    && forall j :: 0 <= j < |keys| ==>
         keys[j] in dims && digits[j] < |dims[keys[j]]| && c[keys[j]] == dims[keys[j]][digits[j]]
  }

  lemma SelectsOneMore(dims: map<string, seq<Value>>, keys: seq<string>, digits: seq<nat>, c: Combo, key: string,
                       b: nat)
    requires Selects(dims, keys, digits, c) && key !in keys && key in dims && b < |dims[key]|
    ensures Selects(dims, keys + [key], digits + [b], c[key := dims[key][b]])
  {
    assert Elements(keys + [key]) == Elements(keys) + {key};
  }

  lemma {:induction false} ProductSize(dims: map<string, seq<Value>>, keys: seq<string>)
    requires forall k :: k in keys ==> k in dims
    ensures |Product(dims, keys)| == Size(dims, keys)
  {
    if keys != [] {
      ProductSize(dims, keys[..|keys| - 1]);
    }
  }

  /** There are as many combinations as the product of the dimension sizes, and the i-th one takes, for
      every key, the value selected by the mixed-radix digit of `i` for that key. */
  lemma {:induction false} ProductDigits(dims: map<string, seq<Value>>, keys: seq<string>, i: nat)
    requires Distinct(keys) && forall k :: k in keys ==> k in dims && dims[k] != []
    requires i < Size(dims, keys)
    ensures |Product(dims, keys)| == Size(dims, keys)
    ensures Selects(dims, keys, Digits(dims, keys, i), Product(dims, keys)[i])
  {
    ProductSize(dims, keys);
    if keys != [] {
      assert keys == keys[..|keys| - 1] + [keys[|keys| - 1]];
      assert keys[|keys| - 1] !in keys[..|keys| - 1] && Distinct(keys[..|keys| - 1]);
      hide Selects, Quotient, Remainder, Elements, Distinct;
      var n := |keys| - 1;
      var init, last, base := keys[..n], keys[n], |dims[keys[n]]|;
      QuotientBelow(i, base, Size(dims, init));
      var a, b := Quotient(i, base), Remainder(i, base);
      ProductDigits(dims, init, a);
      ExtendedAt(Product(dims, init), last, dims[last], a, b);
      SelectsOneMore(dims, init, Digits(dims, init, a), Product(dims, init)[a], last, b);
    }
  }

  // ---- Exclude and include ----

  predicate ValEq(a: Value, b: Value) {
    a == b || (a.Scalar? && b.Scalar? && a.text == b.text)
  }

  /** An exclude entry matches when it is not empty and all its keys agree. */
  predicate Excludes(sub: Combo, full: Combo) {
    sub != map[] && forall k :: k in sub ==> k in full && ValEq(full[k], sub[k])
  }

  predicate Excluded(c: Combo, excludes: seq<Combo>) {
    exists ex :: ex in excludes && Excludes(ex, c)
  }

  function Kept(combos: seq<Combo>, excludes: seq<Combo>): (r: seq<Combo>)
    ensures forall c :: c in r <==> c in combos && !Excluded(c, excludes)
  {
    if combos == [] then []
    else
      assert combos == combos[..|combos| - 1] + [combos[|combos| - 1]];
      var prev := Kept(combos[..|combos| - 1], excludes);
      if Excluded(combos[|combos| - 1], excludes) then prev else prev + [combos[|combos| - 1]]
  }

  method SubsetEq(sub: Combo, full: Combo) returns (b: bool)
    ensures b <==> Excludes(sub, full)
  {
    if |sub| == 0 {
      assert sub == map[];
      return false;
    }
    var todo := sub.Keys;
    while todo != {}
      invariant todo <= sub.Keys
      invariant forall k :: k in sub && k !in todo ==> k in full && ValEq(full[k], sub[k])
      decreases todo
    {
      var k :| k in todo;
      if k !in full || !ValEq(full[k], sub[k]) {
        return false;
      }
      todo := todo - {k};
    }
    return true;
  }

  method MatchesAnyExclude(c: Combo, excludes: seq<Combo>) returns (b: bool)
    ensures b <==> Excluded(c, excludes)
  {
    for i := 0 to |excludes|
      invariant forall j :: 0 <= j < i ==> !Excludes(excludes[j], c)
    {
      var hit := SubsetEq(excludes[i], c);
      if hit {
        return true;
      }
    }
    return false;
  }

  // ---- One stage ----

  function Digit(n: nat): char
    requires n < 10
  {
    '0' + n as char
  }

  /** Go's strconv.Itoa on a non-negative number. */
  function Itoa(n: nat): (s: string)
    ensures |s| > 0 && forall i :: 0 <= i < |s| ==> '0' <= s[i] <= '9'
  {
    if n < 10 then [Digit(n)] else Itoa(n / 10) + [Digit(n % 10)]
  }

  lemma {:induction false} ItoaInjective(a: nat, b: nat)
    requires Itoa(a) == Itoa(b)
    ensures a == b
  {
    var s, t := Itoa(a), Itoa(b);
    assert s[|s| - 1] == Digit(a % 10) && t[|t| - 1] == Digit(b % 10);
    if a >= 10 && b >= 10 {
      assert Itoa(a / 10) == s[..|s| - 1] == t[..|t| - 1] == Itoa(b / 10);
      ItoaInjective(a / 10, b / 10);
    }
  }

  function MatrixSuffix(id: string, idx: nat): string {
    id + "-" + Itoa(idx)
  }

  /** Instance ids determine their stage and their index. */
  lemma SuffixInjective(x: string, i: nat, y: string, j: nat)
    requires MatrixSuffix(x, i) == MatrixSuffix(y, j)
    ensures x == y && i == j
  {
    hide Itoa;
    assert '-' !in Itoa(i) && '-' !in Itoa(j);
    LastDash(x, Itoa(i), y, Itoa(j));
    LastDash(y, Itoa(j), x, Itoa(i));
    SameParts(x, Itoa(i), y, Itoa(j));
    ItoaInjective(i, j);
  }

  lemma LastDash(x: string, a: string, y: string, b: string)
    requires x + "-" + a == y + "-" + b && '-' !in b
    ensures |x| <= |y|
  {
    var s := x + "-" + a;
    assert s[|x|] == '-';
    assert forall k :: |y| < k < |s| ==> s[k] == b[k - |y| - 1];
  }

  lemma SameParts(x: string, a: string, y: string, b: string)
    requires x + "-" + a == y + "-" + b && |x| == |y|
    ensures x == y && a == b
  {
    var s := x + "-" + a;
    assert x == s[..|x|] == y;
    assert a == s[|x| + 1..] == b;
  }

  function Pinned(c: Combo): map<string, seq<Value>> {
    map k | k in c :: [c[k]]
  }

  function Instance(s: Stage, i: nat, c: Combo): Stage {
    s.(id := MatrixSuffix(s.id, i),
       matrix := Some(Matrix(Pinned(c), [], [])),
       with := s.with["__matrix_index" := Index(i)]["__matrix_values" := Combination(c)])
  }

  function Instances(s: Stage, combos: seq<Combo>): seq<Stage> {
    seq(|combos|, i requires 0 <= i < |combos| => Instance(s, i, combos[i]))
  }

  predicate HasMatrix(s: Stage) {
    s.matrix.Some? && (s.matrix.value.dimensions != map[] || s.matrix.value.includes != [])
  }

  /** The combinations left after exclude, followed by those of include. */
  ghost function CombosOf(m: Pipelines.Matrix): seq<Combo> {
    Kept(AllCombos(m.dimensions), m.excludes) + m.includes
  }

  /** What ExpandMatrix returns; None stands for its two errors. */
  ghost function ExpandedStage(s: Stage): Option<seq<Stage>> {
    if !HasMatrix(s) then Some([s])
    else if HasEmptyDimension(s.matrix.value.dimensions) then None
    else if CombosOf(s.matrix.value) == [] then None
    else Some(Instances(s, CombosOf(s.matrix.value)))
  }

  // ---- What the expansion means ----

  /** An exclude entry that is not empty has all its keys in `c`, with the same values or the same texts. */
  ghost predicate Hit(c: Combo, excludes: seq<Combo>) {
    exists ex: Combo :: ex in excludes && ex != map[] && forall k :: k in ex ==>
      k in c && (c[k] == ex[k] || (c[k].Scalar? && ex[k].Scalar? && c[k].text == ex[k].text))
  }

  lemma HitSays(c: Combo, excludes: seq<Combo>)
    ensures Hit(c, excludes) <==> Excluded(c, excludes)
  {
    forall ex: Combo
      ensures Excludes(ex, c) <==> ex != map[] && forall k :: k in ex ==>
                k in c && (c[k] == ex[k] || (c[k].Scalar? && ex[k].Scalar? && c[k].text == ex[k].text))
    {
    }
  }

  /** The dimensions of a matrix in alphabetical order; names that begin with two underscores are not dimensions. */
  ghost function Dimensions(m: Pipelines.Matrix): (keys: seq<string>)
    ensures Distinct(keys) && Ascending(keys)
    ensures forall k :: k in keys <==> k in m.dimensions && !(|k| > 1 && k[0] == '_' && k[1] == '_')
  {
    Listed(Axes(m.dimensions))
  }

  /** `c` takes in every dimension the value that the mixed-radix digits of `p` select. */
  ghost predicate TakenAt(m: Pipelines.Matrix, p: nat, c: Combo) {
    && (forall k :: k in Dimensions(m) ==> m.dimensions[k] != [])
    && p < Size(m.dimensions, Dimensions(m))
    && Selects(m.dimensions, Dimensions(m), Digits(m.dimensions, Dimensions(m), p), c)
  }

  /** `carried` lists what exclude leaves of the product, and `pos` says where in the product it was. */
  ghost predicate Remains(m: Pipelines.Matrix, carried: seq<Combo>, pos: seq<nat>) {
    && |pos| == |carried|
    && (forall i, j :: 0 <= i < j < |pos| ==> pos[i] < pos[j])
    && (forall i :: 0 <= i < |pos| ==> TakenAt(m, pos[i], carried[i]) && !Hit(carried[i], m.excludes))
    && (forall p: nat, c :: TakenAt(m, p, c) && !Hit(c, m.excludes) && m.dimensions != map[] ==> p in pos)
    && (m.dimensions == map[] ==> pos == [])
  }

  ghost predicate RemainOf(m: Pipelines.Matrix, carried: seq<Combo>) {
    exists pos :: Remains(m, carried, pos)
  }

  /** The combination that an instance carries. */
  function Carried(t: Stage): Combo {
    if "__matrix_values" in t.with && t.with["__matrix_values"].Combination? then t.with["__matrix_values"].values
    else map[]
  }

  /** `t` is `s` but for its id, its matrix with one value in every dimension, and the two keys of its own. */
  ghost predicate CopyOf(t: Stage, s: Stage, i: nat) {
    && t.id == s.id + "-" + Itoa(i)
    && t.needs == s.needs && t.kind == s.kind && t.cond == s.cond
    && (forall k :: k in t.with <==> k in s.with || k == "__matrix_index" || k == "__matrix_values")
    && t.with["__matrix_index"] == Index(i) && t.with["__matrix_values"].Combination?
    && (forall k :: k in s.with && k != "__matrix_index" && k != "__matrix_values" ==> t.with[k] == s.with[k])
    && t.matrix.Some? && t.matrix.value.includes == [] && t.matrix.value.excludes == []
    && (forall k :: k in t.matrix.value.dimensions <==> k in Carried(t))
    && (forall k :: k in Carried(t) ==> t.matrix.value.dimensions[k] == [Carried(t)[k]])
  }

  /** What a stage with a matrix becomes: an instance for every combination that remains, then one for every
      include. */
  ghost predicate Expands(s: Stage, m: Pipelines.Matrix, stages: seq<Stage>) {
    && |stages| >= |m.includes|
    && (forall i :: 0 <= i < |stages| ==> CopyOf(stages[i], s, i))
    && (forall j :: 0 <= j < |m.includes| ==> Carried(stages[|stages| - |m.includes| + j]) == m.includes[j])
    && RemainOf(m, FirstCarried(stages, |stages| - |m.includes|))
  }

  /** The combinations of the first `n` instances. */
  function FirstCarried(stages: seq<Stage>, n: nat): (r: seq<Combo>)
    requires n <= |stages|
    ensures |r| == n && forall i :: 0 <= i < n ==> r[i] == Carried(stages[i])
  {
    seq(n, i requires 0 <= i < n => Carried(stages[i]))
  }

  // ---- ExpandMatrix does that ----

  /** Where the combinations that exclude leaves were. */
  function KeptAt(combos: seq<Combo>, excludes: seq<Combo>): seq<nat> {
    if combos == [] then []
    else
      var n := |combos| - 1;
      KeptAt(combos[..n], excludes) + if Excluded(combos[n], excludes) then [] else [n]
  }

  /** `kept` lists the combinations that no exclude matches, and `pos` their positions. */
  ghost predicate Places(combos: seq<Combo>, excludes: seq<Combo>, kept: seq<Combo>, pos: seq<nat>) {
    && |pos| == |kept|
    && (forall i, j :: 0 <= i < j < |pos| ==> pos[i] < pos[j])
    && (forall i :: 0 <= i < |pos| ==> pos[i] < |combos| && kept[i] == combos[pos[i]] && !Excluded(kept[i], excludes))
    && (forall p: nat :: p < |combos| && !Excluded(combos[p], excludes) ==> p in pos)
  }

  lemma PlacesMore(combos: seq<Combo>, excludes: seq<Combo>, kept: seq<Combo>, pos: seq<nat>, c: Combo)
    requires Places(combos, excludes, kept, pos)
    ensures Excluded(c, excludes) ==> Places(combos + [c], excludes, kept, pos)
    ensures !Excluded(c, excludes) ==> Places(combos + [c], excludes, kept + [c], pos + [|combos|])
  {
    hide Excluded;
    var all := combos + [c];
    assert forall p :: 0 <= p < |combos| ==> all[p] == combos[p];
    forall p: nat | p < |all| && !Excluded(all[p], excludes) ensures p in pos + [|combos|] {
      assert p == |combos| || p in pos;
    }
  }

  lemma {:induction false} KeptPlaces(combos: seq<Combo>, excludes: seq<Combo>)
    ensures Places(combos, excludes, Kept(combos, excludes), KeptAt(combos, excludes))
  {
    if combos != [] {
      var n := |combos| - 1;
      KeptPlaces(combos[..n], excludes);
      assert combos == combos[..n] + [combos[n]];
      PlacesMore(combos[..n], excludes, Kept(combos[..n], excludes), KeptAt(combos[..n], excludes), combos[n]);
      hide Places, Excluded;
    }
  }

  lemma AxisNames(m: Pipelines.Matrix)
    ensures forall k :: k in Dimensions(m) ==> k in m.dimensions
    ensures !HasEmptyDimension(m.dimensions) <==> forall k :: k in Dimensions(m) ==> m.dimensions[k] != []
  {
  }

  lemma ProductTaken(m: Pipelines.Matrix, p: nat)
    requires !HasEmptyDimension(m.dimensions) && m.dimensions != map[] && p < |AllCombos(m.dimensions)|
    ensures TakenAt(m, p, AllCombos(m.dimensions)[p])
  {
    AxisNames(m);
    hide Selects, Digits, Product, Size;
    ProductSize(m.dimensions, Dimensions(m));
    ProductDigits(m.dimensions, Dimensions(m), p);
  }

  /** The digits leave no choice. */
  lemma TakenOnce(m: Pipelines.Matrix, p: nat, c: Combo, c': Combo)
    requires TakenAt(m, p, c) && TakenAt(m, p, c')
    ensures c == c'
  {
    var keys := Dimensions(m);
    hide Digits, Size;
    assert c.Keys == c'.Keys == Elements(keys);
    forall k | k in c ensures c[k] == c'[k] {
      assert k in keys;
    }
  }

  lemma KeptRemains(m: Pipelines.Matrix)
    requires !HasEmptyDimension(m.dimensions)
    ensures Remains(m, Kept(AllCombos(m.dimensions), m.excludes), KeptAt(AllCombos(m.dimensions), m.excludes))
  {
    hide Hit, Excluded, TakenAt, KeptAt, AllCombos, Kept, HasEmptyDimension, Places;
    AllTaken(m);
    KeptPlaces(AllCombos(m.dimensions), m.excludes);
    PlacesRemain(m, AllCombos(m.dimensions), Kept(AllCombos(m.dimensions), m.excludes),
                 KeptAt(AllCombos(m.dimensions), m.excludes));
  }

  /** `combos` is the product of the dimensions of `m`. */
  ghost predicate IsProduct(m: Pipelines.Matrix, combos: seq<Combo>) {
    && (m.dimensions == map[] ==> combos == [])
    && (m.dimensions != map[] ==> forall p: nat :: p < |combos| ==> TakenAt(m, p, combos[p]))
    && (m.dimensions != map[] ==> forall p: nat, c :: TakenAt(m, p, c) ==> p < |combos|)
  }

  lemma PlacesRemain(m: Pipelines.Matrix, combos: seq<Combo>, kept: seq<Combo>, pos: seq<nat>)
    requires IsProduct(m, combos) && Places(combos, m.excludes, kept, pos)
    ensures Remains(m, kept, pos)
  {
    hide Hit, Excluded, TakenAt;
    forall i | 0 <= i < |pos| ensures TakenAt(m, pos[i], kept[i]) && !Hit(kept[i], m.excludes) {
      HitSays(kept[i], m.excludes);
    }
    forall p: nat, c | TakenAt(m, p, c) && !Hit(c, m.excludes) && m.dimensions != map[] ensures p in pos {
      assert TakenAt(m, p, combos[p]);
      TakenOnce(m, p, c, combos[p]);
      HitSays(c, m.excludes);
    }
    if m.dimensions == map[] {
      NoPlaces(combos, m.excludes, kept, pos);
    }
  }

  lemma NoPlaces(combos: seq<Combo>, excludes: seq<Combo>, kept: seq<Combo>, pos: seq<nat>)
    requires Places(combos, excludes, kept, pos)
    ensures combos == [] ==> pos == []
  {
    assert pos != [] ==> pos[0] < |combos|;
  }

  lemma AllTaken(m: Pipelines.Matrix)
    requires !HasEmptyDimension(m.dimensions)
    ensures IsProduct(m, AllCombos(m.dimensions))
  {
    if m.dimensions != map[] {
      AxisNames(m);
      ProductSize(m.dimensions, Dimensions(m));
      hide TakenAt;
      forall p: nat | p < |AllCombos(m.dimensions)| {
        ProductTaken(m, p);
      }
      forall p: nat, c | TakenAt(m, p, c) ensures p < |AllCombos(m.dimensions)| {
        TakenBelow(m, p, c);
      }
    }
  }

  lemma TakenBelow(m: Pipelines.Matrix, p: nat, c: Combo)
    requires TakenAt(m, p, c)
    ensures (forall k :: k in Dimensions(m) ==> k in m.dimensions && m.dimensions[k] != [])
    ensures p < Size(m.dimensions, Dimensions(m))
  {
  }

  lemma InstanceCopies(s: Stage, i: nat, c: Combo)
    ensures CopyOf(Instance(s, i, c), s, i) && Carried(Instance(s, i, c)) == c
  {
  }

  /** The expansion as it is computed is the expansion as it is meant. */
  lemma ExpandedMeans(s: Stage)
    requires s.matrix.Some? && !HasEmptyDimension(s.matrix.value.dimensions)
    ensures Expands(s, s.matrix.value, Instances(s, CombosOf(s.matrix.value)))
  {
    var m := s.matrix.value;
    var combos, n := CombosOf(m), |CombosOf(m)| - |m.includes|;
    var stages := Instances(s, combos);
    KeptRemains(m);
    forall i | 0 <= i < |combos| ensures CopyOf(stages[i], s, i) && Carried(stages[i]) == combos[i] {
      InstanceCopies(s, i, combos[i]);
    }
    hide CopyOf, Carried, Instance, Kept, AllCombos, KeptAt;
    assert RemainOf(m, Kept(AllCombos(m.dimensions), m.excludes));
    assert FirstCarried(stages, n) == Kept(AllCombos(m.dimensions), m.excludes);
  }

  /** There is no product, or exclude matches all of it. */
  ghost predicate NothingRemains(m: Pipelines.Matrix) {
    m.dimensions == map[] || forall p: nat, c :: TakenAt(m, p, c) ==> Hit(c, m.excludes)
  }

  /** Nothing remains exactly if exclude matches the whole product. */
  lemma NothingKept(m: Pipelines.Matrix)
    requires !HasEmptyDimension(m.dimensions)
    ensures Kept(AllCombos(m.dimensions), m.excludes) == [] <==> NothingRemains(m)
  {
    KeptRemains(m);
    var kept, pos := Kept(AllCombos(m.dimensions), m.excludes), KeptAt(AllCombos(m.dimensions), m.excludes);
    hide KeptAt, Kept, AllCombos, TakenAt, Hit;
    if kept != [] {
      assert TakenAt(m, pos[0], kept[0]) && !Hit(kept[0], m.excludes);
    }
  }

  /** A stage without a matrix stays as it is; otherwise it is an error if a dimension is empty, or if nothing
      remains of the product and there is no include. */
  method ExpandMatrix(s: Stage) returns (r: Option<seq<Stage>>)
    ensures r == ExpandedStage(s)
    ensures s.matrix.None? || (s.matrix.value.dimensions == map[] && s.matrix.value.includes == []) ==> r == Some([s])
    ensures HasMatrix(s) && r.Some? ==> Expands(s, s.matrix.value, r.value) && r.value != []
    ensures HasMatrix(s) ==>
              var m := s.matrix.value;
              (r == None <==>
                 || (exists k :: k in Dimensions(m) && m.dimensions[k] == [])
                 || (m.includes == [] && NothingRemains(m)))
  {
    if HasMatrix(s) {
      AxisNames(s.matrix.value);
      if !HasEmptyDimension(s.matrix.value.dimensions) {
        NothingKept(s.matrix.value);
        ExpandedMeans(s);
      }
    }
    hide Expands, Remains, Kept, AllCombos, Dimensions, HasEmptyDimension, Instances;

    if s.matrix.None? || (|s.matrix.value.dimensions| == 0 && |s.matrix.value.includes| == 0) {
      assert !HasMatrix(s);
      return Some([s]);
    }
    var m := s.matrix.value;
    assert HasMatrix(s);
    var product := Cartesian(m.dimensions);
    if product.None? {
      return None;
    }
    var combos := Filtered(product.value, m.excludes);
    combos := combos + m.includes;
    if |combos| == 0 {
      return None;
    }
    var stages := Instantiate(s, combos);
    return Some(stages);
  }

  method Instantiate(s: Stage, combos: seq<Combo>) returns (stages: seq<Stage>)
    ensures stages == Instances(s, combos)
  {
    stages := [];
    for i := 0 to |combos|
      invariant |stages| == i && forall j :: 0 <= j < i ==> stages[j] == Instance(s, j, combos[j])
    {
      var c := combos[i];
      var cp := s.(id := MatrixSuffix(s.id, i), matrix := Some(Pipelines.Matrix(Pinned(c), [], [])));
      cp := cp.(with := cp.with["__matrix_index" := Index(i)]);
      cp := cp.(with := cp.with["__matrix_values" := Combination(c)]);
      stages := stages + [cp];
    }
  }

  method Filtered(combos: seq<Combo>, excludes: seq<Combo>) returns (filtered: seq<Combo>)
    ensures filtered == Kept(combos, excludes)
  {
    if |excludes| == 0 {
      NothingExcluded(combos);
      return combos;
    }
    filtered := [];
    for i := 0 to |combos|
      invariant filtered == Kept(combos[..i], excludes)
    {
      var hit := MatchesAnyExclude(combos[i], excludes);
      if !hit {
        filtered := filtered + [combos[i]];
      }
      assert combos[..i + 1][..i] == combos[..i];
    }
    assert combos[..|combos|] == combos;
  }

  lemma {:induction false} NothingExcluded(combos: seq<Combo>)
    ensures Kept(combos, []) == combos
  {
    if combos != [] {
      NothingExcluded(combos[..|combos| - 1]);
    }
  }
}
