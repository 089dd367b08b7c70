/** Which combinations the instances of a matrix stage carry. */
module Choices {
  import opened Sequences
  import opened Strings
  import opened Pipelines
  import opened Matrix

  // api/pkg/engine/matrix.go: every choice of values that exclude leaves, once, and in the order of the mixed-radix
  // numbers.

  /** One more digit. */
  lemma DigitsOf(dims: map<string, seq<Value>>, keys: seq<string>, a: nat, b: nat) returns (p: nat)
    requires keys != [] && forall k :: k in keys ==> k in dims && dims[k] != []
    requires b < |dims[keys[|keys| - 1]]| && a < Size(dims, keys[..|keys| - 1])
    ensures p < Size(dims, keys) && Digits(dims, keys, p) == Digits(dims, keys[..|keys| - 1], a) + [b]
  {
    var base := |dims[keys[|keys| - 1]]|;
    p := a * base + b;
    QuotientIs(a, base, b, Size(dims, keys[..|keys| - 1]));
    hide Quotient, Remainder;
  }

  lemma QuotientIs(a: nat, base: nat, b: nat, n: nat)
    requires b < base && a < n
    ensures a * base + b < n * base
    ensures Quotient(a * base + b, base) == a && Remainder(a * base + b, base) == b
  {
    var q, r := (a * base + b) / base, (a * base + b) % base;
    assert q * base + r == a * base + b;
    Between(q, r, a, b, base);
    Times(a + 1, n, base);
    assert (a + 1) * base == a * base + base;
  }

  lemma Times(a: nat, n: nat, base: nat)
    requires a <= n
    ensures a * base <= n * base
  {
  }

  lemma Between(q: nat, r: nat, a: nat, b: nat, base: nat)
    requires q * base + r == a * base + b && r < base && b < base
    ensures q == a && r == b
  {
    if q < a {
      Times(q + 1, a, base);
    } else if a < q {
      Times(a + 1, q, base);
    }
  }

  ghost predicate Chooses(dims: map<string, seq<Value>>, keys: seq<string>, c: Combo) {
    && Distinct(keys)
    && (forall k :: k in keys ==> k in dims && dims[k] != [])
    && c.Keys == Elements(keys)
    && (forall k :: k in keys ==> c[k] in dims[k])
  }

  /** Every choice of one value for each key has a position. */
  lemma {:induction false} ChoicePosition(dims: map<string, seq<Value>>, keys: seq<string>, c: Combo)
    returns (p: nat)
    requires Chooses(dims, keys, c)
    ensures (forall k :: k in keys ==> k in dims && dims[k] != [])
    ensures p < Size(dims, keys) && Selects(dims, keys, Digits(dims, keys, p), c)
  {
    if keys == [] {
      p := 0;
    } else {
      var last := keys[|keys| - 1];
      var rest, b := WithoutLast(dims, keys, c);
      hide Selects, Digits, Size, Chooses, Elements, Distinct;
      var a := ChoicePosition(dims, keys[..|keys| - 1], rest);
      SelectsOneMore(dims, keys[..|keys| - 1], Digits(dims, keys[..|keys| - 1], a), rest, last, b);
      p := DigitsOf(dims, keys, a, b);
    }
  }

  lemma WithoutLast(dims: map<string, seq<Value>>, keys: seq<string>, c: Combo) returns (rest: Combo, b: nat)
    requires keys != [] && Chooses(dims, keys, c)
    ensures (forall k :: k in keys ==> k in dims && dims[k] != [])
    ensures var init, last := keys[..|keys| - 1], keys[|keys| - 1];
            && keys == init + [last] && last !in init && Chooses(dims, init, rest)
            && b < |dims[last]| && rest[last := dims[last][b]] == c
  {
    var init, last := keys[..|keys| - 1], keys[|keys| - 1];
    assert keys == init + [last] && last !in init;
    rest := map k | k in c && k != last :: c[k];
    assert rest.Keys == Elements(init);
    b :| b < |dims[last]| && dims[last][b] == c[last];
  }

  /** `c` takes one of the values of every dimension. */
  ghost predicate Choice(m: Pipelines.Matrix, c: Combo) {
    && (forall k :: k in c <==> k in Dimensions(m))
    && (forall k :: k in c ==> c[k] in m.dimensions[k])
  }

  lemma ChoiceTaken(m: Pipelines.Matrix, c: Combo) returns (p: nat)
    requires Choice(m, c)
    ensures TakenAt(m, p, c)
  {
    hide Selects, Digits, Size;
    p := ChoicePosition(m.dimensions, Dimensions(m), c);
  }

  /** No dimension lists a value twice. */
  ghost predicate NoRepeats(m: Pipelines.Matrix) {
    forall k :: k in Dimensions(m) ==> Distinct(m.dimensions[k])
  }

  lemma TakenAtOne(m: Pipelines.Matrix, p: nat, q: nat, c: Combo)
    requires NoRepeats(m) && TakenAt(m, p, c) && TakenAt(m, q, c)
    ensures p == q
  {
    var dims, keys := m.dimensions, Dimensions(m);
    var ps, qs := Digits(dims, keys, p), Digits(dims, keys, q);
    NumberOfDigits(dims, keys, p);
    NumberOfDigits(dims, keys, q);
    hide Digits, Size, Number, Dimensions;
    forall j | 0 <= j < |keys| ensures ps[j] == qs[j] {
      assert keys[j] in keys;
      assert dims[keys[j]][ps[j]] == c[keys[j]] == dims[keys[j]][qs[j]];
    }
    assert ps == qs;
  }

  lemma ExpandsRemain(s: Stage, m: Pipelines.Matrix, stages: seq<Stage>)
    requires Expands(s, m, stages)
    ensures |stages| >= |m.includes| && RemainOf(m, FirstCarried(stages, |stages| - |m.includes|))
  {
    hide CopyOf, Carried, RemainOf;
  }

  lemma CarriedChoice(m: Pipelines.Matrix, carried: seq<Combo>, i: nat)
    requires RemainOf(m, carried) && i < |carried|
    ensures Choice(m, carried[i]) && !Hit(carried[i], m.excludes)
  {
    var pos :| Remains(m, carried, pos);
    hide Hit, TakenAt, Choice;
    TakenIsChoice(m, pos[i], carried[i]);
  }

  lemma ChoiceCarried(m: Pipelines.Matrix, carried: seq<Combo>, c: Combo) returns (i: nat)
    requires RemainOf(m, carried) && Choice(m, c) && !Hit(c, m.excludes) && m.dimensions != map[]
    ensures i < |carried| && carried[i] == c
  {
    var pos :| Remains(m, carried, pos);
    hide Hit, TakenAt, Choice;
    var p := ChoiceTaken(m, c);
    i :| i < |pos| && pos[i] == p;
    TakenOnce(m, p, c, carried[i]);
  }

  lemma CarriedApart(m: Pipelines.Matrix, carried: seq<Combo>, i: nat, j: nat)
    requires RemainOf(m, carried) && NoRepeats(m) && i < j < |carried|
    ensures carried[i] != carried[j]
  {
    var pos :| Remains(m, carried, pos);
    hide Hit, TakenAt, NoRepeats;
    if carried[i] == carried[j] {
      TakenAtOne(m, pos[i], pos[j], carried[i]);
    }
  }

  /** Every choice that no exclude matches is carried by an instance of the product, and by only one if no dimension
      lists a value twice; an instance of the product carries nothing else. */
  lemma EveryChoiceOnce(s: Stage, m: Pipelines.Matrix, stages: seq<Stage>, c: Combo)
    requires Expands(s, m, stages) && m.dimensions != map[]
    ensures Choice(m, c) && !Hit(c, m.excludes) <==>
            exists i :: 0 <= i < |stages| - |m.includes| && Carried(stages[i]) == c
    ensures NoRepeats(m) ==> forall i, j ::
              0 <= i < j < |stages| - |m.includes| ==> Carried(stages[i]) != Carried(stages[j])
  {
    hide Expands, Carried, Choice, Hit, NoRepeats, RemainOf, FirstCarried;
    ExpandsRemain(s, m, stages);
    var n := |stages| - |m.includes|;
    var carried := FirstCarried(stages, n);
    if Choice(m, c) && !Hit(c, m.excludes) {
      var i := ChoiceCarried(m, carried, c);
      assert Carried(stages[i]) == c;
    }
    if i :| 0 <= i < n && Carried(stages[i]) == c {
      CarriedChoice(m, carried, i);
    }
    if NoRepeats(m) {
      forall i, j | 0 <= i < j < n ensures Carried(stages[i]) != Carried(stages[j]) {
        CarriedApart(m, carried, i, j);
      }
    }
  }

  lemma TakenIsChoice(m: Pipelines.Matrix, p: nat, c: Combo)
    requires TakenAt(m, p, c)
    ensures Choice(m, c)
  {
    var dims, keys := m.dimensions, Dimensions(m);
    hide Digits, Size, Dimensions;
    forall k | k in c ensures k in keys && c[k] in dims[k] {
      var j :| 0 <= j < |keys| && keys[j] == k;
    }
  }

  lemma TakenExists(m: Pipelines.Matrix, p: nat) returns (c: Combo)
    requires m.dimensions != map[] && (forall k :: k in Dimensions(m) ==> m.dimensions[k] != [])
    requires p < Size(m.dimensions, Dimensions(m))
    ensures TakenAt(m, p, c)
  {
    AxisNames(m);
    ProductSize(m.dimensions, Dimensions(m));
    c := AllCombos(m.dimensions)[p];
    ProductTaken(m, p);
  }

  /** An increasing list of everything below its members is the list of all numbers. */
  lemma {:induction false} AllBelow(pos: seq<nat>, i: nat)
    requires i < |pos| && forall j, k :: 0 <= j < k < |pos| ==> pos[j] < pos[k]
    requires forall j, p: nat :: 0 <= j < |pos| && p < pos[j] ==> p in pos
    ensures pos[i] == i
  {
    if i > 0 {
      AllBelow(pos, i - 1);
    }
    if pos[i] > i {
      PassedOver(pos, i);
    }
  }

  lemma PassedOver(pos: seq<nat>, i: nat)
    requires i < |pos| && forall j, k :: 0 <= j < k < |pos| ==> pos[j] < pos[k]
    requires pos[i] > i && (i > 0 ==> pos[i - 1] == i - 1)
    ensures i !in pos
  {
    assert forall k :: 0 <= k < i ==> pos[k] <= pos[i - 1];
  }

  /** Without exclude the i-th instance carries the values that the mixed-radix digits of `i` select. */
  lemma NoExcludeDigits(s: Stage, m: Pipelines.Matrix, stages: seq<Stage>, i: nat)
    requires Expands(s, m, stages) && m.dimensions != map[] && m.excludes == []
    requires i < |stages| - |m.includes|
    ensures TakenAt(m, i, Carried(stages[i]))
  {
    hide Expands, Carried, TakenAt;
    ExpandsRemain(s, m, stages);
    RemainsInPlace(m, FirstCarried(stages, |stages| - |m.includes|), i);
  }

  lemma RemainsInPlace(m: Pipelines.Matrix, carried: seq<Combo>, i: nat)
    requires RemainOf(m, carried) && m.dimensions != map[] && m.excludes == [] && i < |carried|
    ensures TakenAt(m, i, carried[i])
  {
    var pos :| Remains(m, carried, pos);
    hide TakenAt;
    forall j, p: nat | 0 <= j < |pos| && p < pos[j] ensures p in pos {
      var c := TakenBefore(m, pos[j], carried[j], p);
    }
    AllBelow(pos, i);
  }

  lemma TakenBefore(m: Pipelines.Matrix, q: nat, c': Combo, p: nat) returns (c: Combo)
    requires m.dimensions != map[] && m.excludes == [] && TakenAt(m, q, c') && p < q
    ensures TakenAt(m, p, c) && !Hit(c, m.excludes)
  {
    TakenBelow(m, q, c');
    c := TakenExists(m, p);
  }
}
