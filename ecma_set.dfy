/**
 * An ECMAScript `Set` of labels (section 24.2 of ECMA-262, 2023 edition). A
 * Set keeps its values in a list in the order they were first added; `add`
 * appends a value that is not yet there, `delete` takes one out and leaves the
 * others in their order, and iteration (`Array.from`) visits the list in order.
 * Labels are strings, for which SameValueZero is plain equality.
 *
 * The first part defines these orderings as functions on sequences and proves
 * what they keep; the class `JsSet` at the end is the mutable object itself.
 */
module EcmaSet {
  import opened Wrappers

  type Label = string

  // ---------------------------------------------------------------------------
  // Insertion-ordered sequences
  // ---------------------------------------------------------------------------

  predicate NoDups(s: seq<Label>)
  {
    forall i, j :: 0 <= i < j < |s| ==> s[i] != s[j]
  }

  /** The list after `add(x)`: unchanged if `x` is already there, else `x` appended. */
  function Insert(s: seq<Label>, x: Label): (r: seq<Label>)
    ensures x in r
    ensures forall y :: y in r <==> y in s || y == x
    ensures NoDups(s) ==> NoDups(r)
  {
    if x in s then s else s + [x]
  }

  /** The list after `add` of every element of `xs`, in order. */
  function InsertAll(s: seq<Label>, xs: seq<Label>): (r: seq<Label>)
    ensures forall y :: y in r <==> y in s || y in xs
    ensures NoDups(s) ==> NoDups(r)
    decreases |xs|
  {
    if xs == [] then s else InsertAll(Insert(s, xs[0]), xs[1..])
  }

  /** The list after `delete(x)`: every `x` taken out, the rest in order. */
  function Without(s: seq<Label>, x: Label): (r: seq<Label>)
    ensures forall y :: y in r <==> y in s && y != x
    ensures |r| <= |s|
    ensures NoDups(s) ==> NoDups(r)
  {
    if s == [] then []
    else if s[0] == x then Without(s[1..], x)
    else
      assert NoDups(s) ==> NoDups(s[1..]) && s[0] !in s[1..];
      [s[0]] + Without(s[1..], x)
  }

  /** The elements of `xs` that do not occur in `s`, in order, repeats kept. */
  function Minus(xs: seq<Label>, s: seq<Label>): (r: seq<Label>)
    ensures forall y :: y in r <==> y in xs && y !in s
  {
    if xs == [] then []
    else if xs[0] in s then Minus(xs[1..], s)
    else [xs[0]] + Minus(xs[1..], s)
  }

  /** The first occurrence of each element of `xs`, in the order of `xs`. */
  function Dedup(xs: seq<Label>): (r: seq<Label>)
    ensures NoDups(r)
    ensures forall y :: y in r <==> y in xs
    decreases |xs|
  {
    if xs == [] then []
    else
      var rest := Dedup(Without(xs[1..], xs[0]));
      NoDupsCons(xs[0], rest);
      [xs[0]] + rest
  }

  lemma NoDupsCons(x: Label, s: seq<Label>)
    requires NoDups(s) && x !in s
    ensures NoDups([x] + s)
  {
    forall i, j | 0 <= i < j < |[x] + s|
      ensures ([x] + s)[i] != ([x] + s)[j]
    {
      if i > 0 {
        assert ([x] + s)[i] == s[i - 1];
      }
      assert ([x] + s)[j] == s[j - 1];
    }
  }

  // ---------------------------------------------------------------------------
  // Lemmas
  // ---------------------------------------------------------------------------

  lemma {:induction false} WithoutAbsent(s: seq<Label>, x: Label)
    requires x !in s
    ensures Without(s, x) == s
  {
    if s != [] {
      WithoutAbsent(s[1..], x);
      assert [s[0]] + s[1..] == s;
    }
  }

  /** In a list without repeats, `delete` takes out exactly the one position holding the value. */
  lemma {:induction false} WithoutAt(s: seq<Label>, i: nat)
    requires NoDups(s) && i < |s|
    ensures Without(s, s[i]) == s[..i] + s[i + 1..]
  {
    if i == 0 {
      assert s[0] !in s[1..];
      WithoutAbsent(s[1..], s[0]);
    } else {
      assert s[0] != s[i];
      assert NoDups(s[1..]);
      WithoutAt(s[1..], i - 1);
      assert s[1..][i - 1] == s[i];
      assert s[..i] == [s[0]] + s[1..][..i - 1];
      assert s[i + 1..] == s[1..][i..];
    }
  }

  /** A list without repeats is its own first occurrences. */
  lemma {:induction false} DedupNoDups(s: seq<Label>)
    requires NoDups(s)
    ensures Dedup(s) == s
  {
    if s != [] {
      assert s[0] !in s[1..];
      assert NoDups(s[1..]);
      WithoutAbsent(s[1..], s[0]);
      DedupNoDups(s[1..]);
      assert [s[0]] + s[1..] == s;
    }
  }

  lemma {:induction false} MinusNothing(xs: seq<Label>)
    ensures Minus(xs, []) == xs
  {
    if xs != [] {
      MinusNothing(xs[1..]);
      assert [xs[0]] + xs[1..] == xs;
    }
  }

  /** Only which values a list holds matters to what `Minus` leaves out. */
  lemma {:induction false} MinusSameElements(xs: seq<Label>, s: seq<Label>, t: seq<Label>)
    requires forall y :: y in s <==> y in t
    ensures Minus(xs, s) == Minus(xs, t)
  {
    if xs != [] {
      MinusSameElements(xs[1..], s, t);
    }
  }

  /** Leaving out one more value `x` is deleting `x` from what was left. */
  lemma {:induction false} MinusSnoc(xs: seq<Label>, s: seq<Label>, x: Label)
    ensures Minus(xs, s + [x]) == Without(Minus(xs, s), x)
  {
    if xs != [] {
      MinusSnoc(xs[1..], s, x);
    }
  }

  lemma SeqAssoc(a: seq<Label>, b: seq<Label>, c: seq<Label>)
    ensures (a + b) + c == a + (b + c)
  {
  }

  lemma DedupCons(x: Label, rest: seq<Label>)
    ensures Dedup([x] + rest) == [x] + Dedup(Without(rest, x))
  {
    assert ([x] + rest)[1..] == rest;
  }

  lemma InsertAllCons(s: seq<Label>, xs: seq<Label>)
    requires xs != []
    ensures InsertAll(s, xs) == InsertAll(Insert(s, xs[0]), xs[1..])
  {
  }

  lemma MinusCons(xs: seq<Label>, s: seq<Label>)
    requires xs != []
    ensures xs[0] in s ==> Minus(xs, s) == Minus(xs[1..], s)
    ensures xs[0] !in s ==> Minus(xs, s) == [xs[0]] + Minus(xs[1..], s)
  {
  }

  /**
   * Adding `xs` to a list without repeats keeps the list and appends the new
   * values of `xs`, each once, in the order of their first occurrence in `xs`.
   */
  lemma {:induction false} InsertAllOrder(s: seq<Label>, xs: seq<Label>)
    requires NoDups(s)
    ensures InsertAll(s, xs) == s + Dedup(Minus(xs, s))
    decreases |xs|
  {
    if xs == [] {
    } else {
      var x := xs[0];
      InsertAllCons(s, xs);
      MinusCons(xs, s);
      if x in s {
        InsertAllOrder(s, xs[1..]);
      } else {
        var rest := Minus(xs[1..], s);
        var tail := Dedup(Without(rest, x));
        assert Insert(s, x) == s + [x];
        calc {
          InsertAll(s, xs);
          InsertAll(s + [x], xs[1..]);
          { InsertAllOrder(s + [x], xs[1..]); }
          (s + [x]) + Dedup(Minus(xs[1..], s + [x]));
          { MinusSnoc(xs[1..], s, x); }
          (s + [x]) + tail;
          { SeqAssoc(s, [x], tail); }
          s + ([x] + tail);
          { DedupCons(x, rest); }
          s + Dedup([x] + rest);
          s + Dedup(Minus(xs, s));
        }
      }
    }
  }

  /** Filling an empty Set from `xs` keeps the first occurrence of each value. */
  lemma InsertAllFromEmpty(xs: seq<Label>)
    ensures InsertAll([], xs) == Dedup(xs)
  {
    InsertAllOrder([], xs);
    MinusNothing(xs);
  }

  /** Adding `xs + [x]` is adding `xs`, then `x`. */
  lemma {:induction false} InsertAllSnoc(s: seq<Label>, xs: seq<Label>, x: Label)
    ensures InsertAll(s, xs + [x]) == Insert(InsertAll(s, xs), x)
    decreases |xs|
  {
    if xs == [] {
      assert xs + [x] == [x];
      assert [x][1..] == [];
    } else {
      assert (xs + [x])[0] == xs[0];
      assert (xs + [x])[1..] == xs[1..] + [x];
      InsertAllSnoc(Insert(s, xs[0]), xs[1..], x);
    }
  }

  /** One more step of a loop that adds the values of `xs` in order. */
  lemma InsertAllStep(s: seq<Label>, xs: seq<Label>, i: nat)
    requires i < |xs|
    ensures InsertAll(s, xs[..i + 1]) == Insert(InsertAll(s, xs[..i]), xs[i])
  {
    assert xs[..i + 1] == xs[..i] + [xs[i]];
    InsertAllSnoc(s, xs[..i], xs[i]);
  }

  /** Adding values that are all present already changes nothing. */
  lemma {:induction false} InsertAllPresent(s: seq<Label>, xs: seq<Label>)
    requires forall y :: y in xs ==> y in s
    ensures InsertAll(s, xs) == s
  {
    if xs != [] {
      assert xs[0] in s;
      InsertAllPresent(s, xs[1..]);
    }
  }

  /** Adding the same values a second time changes nothing. */
  lemma InsertAllIdempotent(s: seq<Label>, xs: seq<Label>)
    ensures InsertAll(InsertAll(s, xs), xs) == InsertAll(s, xs)
  {
    InsertAllPresent(InsertAll(s, xs), xs);
  }

  /** The values of `new Set(iterable)`: none for `null`, else the first occurrences in order. */
  function Initial(iterable: Option<seq<Label>>): (r: seq<Label>)
    ensures NoDups(r)
    ensures iterable.None? ==> r == []
    ensures iterable.Some? ==> forall y :: y in r <==> y in iterable.value
    ensures iterable.Some? && NoDups(iterable.value) ==> r == iterable.value
  {
    if iterable.None? then []
    else
      var values := iterable.value;
      // Both branches give `Dedup(values)`; the first only calls the lemma
      // behind the last ensures clause.
      if NoDups(values) then DedupNoDups(values); Dedup(values) else Dedup(values)
  }

  // ---------------------------------------------------------------------------
  // The Set object
  // ---------------------------------------------------------------------------

  class JsSet {
    /** [[SetData]], with the entries `delete` emptied dropped. */
    var elements: seq<Label>

    ghost predicate Valid()
      reads this
    {
      NoDups(elements)
    }

    /**
     * `new Set(iterable)`: an empty Set when the argument is `null`, otherwise
     * one filled by `add` of each value of the iterable in order.
     */
    constructor (iterable: Option<seq<Label>>)
      ensures Valid()
      ensures elements == Initial(iterable)
    {
      elements := [];
      new;
      if iterable.Some? {
        var values := iterable.value;
        for i := 0 to |values|
          invariant Valid()
          invariant elements == InsertAll([], values[..i])
        {
          InsertAllStep([], values, i);
          Add(values[i]);
        }
        assert values[..|values|] == values;
        InsertAllFromEmpty(values);
      }
    }

    /** `set.add(value)`. */
    method Add(value: Label)
      requires Valid()
      modifies this
      ensures Valid()
      ensures elements == Insert(old(elements), value)
    {
      if value !in elements {
        elements := elements + [value];
      }
    }

    /** `set.delete(value)`: whether the value was there, and the Set without it. */
    method Delete(value: Label) returns (found: bool)
      requires Valid()
      modifies this
      ensures Valid()
      ensures found <==> value in old(elements)
      ensures elements == Without(old(elements), value)
    {
      var i := 0;
      while i < |elements| && elements[i] != value
        invariant 0 <= i <= |elements|
        invariant value !in elements[..i]
      {
        i := i + 1;
      }
      found := i < |elements|;
      if found {
        WithoutAt(elements, i);
        elements := elements[..i] + elements[i + 1..];
      } else {
        assert elements[..i] == elements;
        WithoutAbsent(elements, value);
      }
    }
  }

}
