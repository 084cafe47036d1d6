/**
 Paths: the ids of the template uses passed on the way to an instantiation, packed into one 64-bit
 word below a leading 1. A generator appends a component by shifting the path left; the chain of
 intermediate functions reads the components back from the highest one down.
 */
module TemplatePath {
  import opened Bits

  /** One step of a path: the id of a use and the number of bits given to it. */
  datatype Component = Component(width: nat, id: nat)

  ghost predicate Fits(components: seq<Component>) {
    forall i :: 0 <= i < |components| ==> components[i].id < Pow2(components[i].width)
  }

  ghost predicate Narrow(components: seq<Component>) {
    forall i :: 0 <= i < |components| ==> components[i].width < WORD
  }

  /** What the decoder is for: the ids in order, and nothing left over. */
  ghost predicate ReadsBack(components: seq<Component>) {
    var path := Encode(components);
    Decode(path, StartPosition(path), components) == Decoded(Ids(components), 0)
  }

  /** Appends a component, in 64-bit arithmetic. */
  function Append(path: nat, width: nat, id: nat): nat {
    BitOr(Shl(path, width), id)
  }

  /** The path of a list of components: '1' with every component appended in turn. */
  function Encode(components: seq<Component>): nat {
    if components == [] then 1
    else
      var last := components[|components| - 1];
      Append(Encode(components[..|components| - 1]), last.width, last.id)
  }

  function ComponentAt(path: nat, position: nat, width: nat): nat {
    BitAnd(LShr(path, position), Mask(width))
  }

  /** Where reading starts: 63 minus the number of leading zeros. */
  function StartPosition(path: nat): nat {
    HighestBit(path)
  }

  datatype Decoded = Stuck | Decoded(ids: seq<nat>, position: nat)

  /** Reads components of the given widths, from a position down. */
  function Decode(path: nat, position: nat, components: seq<Component>): Decoded {
    if components == [] then Decoded([], position)
    else if position < components[0].width then Stuck
    else
      var position' := position - components[0].width;
      match Decode(path, position', components[1..])
      case Stuck => Stuck
      case Decoded(ids, end) => Decoded([ComponentAt(path, position', components[0].width)] + ids, end)
  }

  function Total(components: seq<Component>): nat {
    if components == [] then 0
    else Total(components[..|components| - 1]) + components[|components| - 1].width
  }

  function Ids(components: seq<Component>): seq<nat> {
    if components == [] then [] else [components[0].id] + Ids(components[1..])
  }

  // ----- Appending one component -----

  lemma ShiftedBounds(path: nat, width: nat, id: nat)
    requires path > 0 && id < Pow2(width)
    ensures Pow2(HighestBit(path) + width) <= path * Pow2(width) + id < Pow2(HighestBit(path) + width + 1)
  {
    hide Pow2, HighestBit;
    var h := HighestBit(path);
    HighestBitBounds(path);
    Pow2Add(h, width);
    Pow2Add(h + 1, width);
    MulMonotone(Pow2(h), path, Pow2(width));
    MulStep(path, id, Pow2(h + 1), Pow2(width));
    assert h + 1 + width == h + width + 1;
  }

  lemma ShiftInWord(path: nat, width: nat)
    requires path * Pow2(width) < Pow2(WORD)
    ensures Shl(path, width) == path * Pow2(width)
  {
    hide Pow2;
    ShlIs(path, width);
    DivUnique(path * Pow2(width), Pow2(WORD), 0, path * Pow2(width));
  }

  /** While the leading 1 stays inside the word, appending is exact and everything can be read back. */
  lemma AppendExact(path: nat, width: nat, id: nat)
    requires path > 0 && HighestBit(path) + width < WORD && id < Pow2(width)
    ensures Append(path, width, id) == path * Pow2(width) + id
    ensures 0 < Append(path, width, id) < Pow2(WORD)
    ensures HighestBit(Append(path, width, id)) == HighestBit(path) + width
  {
    hide Pow2, BitOr, HighestBit, Shl;
    ShiftedBounds(path, width, id);
    Pow2Monotone(HighestBit(path) + width + 1, WORD);
    ShiftInWord(path, width);
    OrDisjoint(path, width, id);
    HighestBitUnique(path * Pow2(width) + id, HighestBit(path) + width);
  }

  /** Reading above the appended component sees the old path, also by whole words. */
  lemma ReadAbove(path: nat, width: nat, id: nat, position: nat)
    requires path > 0 && HighestBit(path) + width < WORD && id < Pow2(width)
    ensures LShr(Append(path, width, id), position + width) == LShr(path, position)
  {
    hide Pow2, BitOr, HighestBit, Append, LShr;
    AppendExact(path, width, id);
    LShrAdd(Append(path, width, id), width, position);
    LShrIs(Append(path, width, id), width);
    DivUnique(Append(path, width, id), Pow2(width), path, id);
  }

  lemma ReadLast(path: nat, width: nat, id: nat)
    requires path > 0 && HighestBit(path) + width < WORD && id < Pow2(width)
    ensures LShr(Append(path, width, id), 0) == Append(path, width, id)
    ensures ComponentAt(Append(path, width, id), 0, width) == id
    ensures LShr(Append(path, width, id), width) == path
  {
    hide BitOr, HighestBit, Append, BitAnd, Mask;
    AppendExact(path, width, id);
    LShrIs(Append(path, width, id), width);
    DivUnique(Append(path, width, id), Pow2(width), path, id);
    AndMask(Append(path, width, id), width);
  }

  /** Replacing the last component is appending another one to the path before it. */
  lemma ReplaceLast(path: nat, width: nat, id: nat, id': nat)
    requires path > 0 && HighestBit(path) + width < WORD && id < Pow2(width) && id' < Pow2(width)
    ensures Append(path, width, id) < Pow2(WORD) && Mask(width) < Pow2(WORD)
    ensures BitOr(BitAnd(Append(path, width, id), BitNot(Mask(width))), id') == Append(path, width, id')
  {
    hide BitOr, HighestBit, Append, BitAnd, Mask, BitNot, Pow2;
    AppendExact(path, width, id);
    AppendExact(path, width, id');
    AndNotMask(Append(path, width, id), width);
    DivUnique(Append(path, width, id), Pow2(width), path, id);
    OrDisjoint(path, width, id');
  }

  // ----- Whole paths -----

  lemma {:induction false} EncodeExact(components: seq<Component>)
    requires Fits(components) && Total(components) < WORD
    ensures 0 < Encode(components) < Pow2(WORD)
    ensures HighestBit(Encode(components)) == Total(components)
  {
    if components == [] {
      Pow2Monotone(0, WORD);
    } else {
      EncodeExact(components[..|components| - 1]);
      var last := components[|components| - 1];
      AppendExact(Encode(components[..|components| - 1]), last.width, last.id);
    }
  }

  lemma {:induction false} OrFits(a: nat, b: nat, n: nat)
    requires a < Pow2(n) && b < Pow2(n)
    ensures BitOr(a, b) < Pow2(n)
    decreases n
  {
    if n > 0 && a > 0 && b > 0 {
      OrFits(a / 2, b / 2, n - 1);
    }
  }

  lemma EncodeInWord(components: seq<Component>)
    requires Fits(components) && Narrow(components)
    ensures Encode(components) < Pow2(WORD)
  {
    hide BitOr;
    if components == [] {
      Pow2Monotone(0, WORD);
    } else {
      var last := components[|components| - 1];
      Pow2Monotone(last.width, WORD);
      ShlIs(Encode(components[..|components| - 1]), last.width);
      OrFits(Shl(Encode(components[..|components| - 1]), last.width), last.id, WORD);
    }
  }

  /** The reader starts at the right bit exactly when the path and its leading 1 fit the word. */
  lemma StartsRightExactlyWhenItFits(components: seq<Component>)
    requires Fits(components) && Narrow(components)
    ensures StartPosition(Encode(components)) == Total(components) <==> 1 + Total(components) <= WORD
  {
    hide Encode;
    if Total(components) < WORD {
      EncodeExact(components);
    } else {
      EncodeInWord(components);
      var path := Encode(components);
      if HighestBit(path) >= WORD {
        if path > 0 {
          HighestBitBounds(path);
          Pow2Monotone(WORD, HighestBit(path));
        }
      }
    }
  }

  lemma {:induction false} TotalSplit(a: seq<Component>, b: seq<Component>)
    ensures Total(a + b) == Total(a) + Total(b)
    decreases |b|
  {
    if b == [] {
      assert a + b == a;
    } else {
      assert (a + b)[..|a + b| - 1] == a + b[..|b| - 1];
      TotalSplit(a, b[..|b| - 1]);
    }
  }

  /** Shifting the later components away leaves the path of the earlier ones. */
  lemma {:induction false} PrefixPath(a: seq<Component>, b: seq<Component>)
    requires Fits(a + b) && Total(a + b) < WORD
    ensures LShr(Encode(a + b), Total(b)) == Encode(a)
    decreases |b|
  {
    hide Append, LShr, HighestBit;
    if b == [] {
      assert a + b == a;
      ShiftByNothing(Encode(a));
    } else {
      var shorter := b[..|b| - 1];
      var last := b[|b| - 1];
      assert (a + b)[..|a + b| - 1] == a + shorter;
      assert last == (a + b)[|a + b| - 1];
      FitsPrefix(a + shorter, [last], a + b);
      PrefixPath(a, shorter);
      EncodeExact(a + shorter);
      ReadAbove(Encode(a + shorter), last.width, last.id, Total(shorter));
    }
  }

  lemma FitsPrefix(a: seq<Component>, b: seq<Component>, c: seq<Component>)
    requires Fits(c) && c == a + b
    ensures Fits(a) && Fits(b)
  {
    assert a == c[..|a|] && b == c[|a|..];
  }

  lemma ShiftByNothing(a: nat)
    ensures LShr(a, 0) == a
  {}

  lemma {:induction false} DecodeSuffix(a: seq<Component>, b: seq<Component>)
    requires Fits(a + b) && Total(a + b) < WORD
    ensures Decode(Encode(a + b), Total(b), b) == Decoded(Ids(b), 0)
    decreases |b|
  {
    hide Encode, LShr, BitAnd, Fits;
    if b != [] {
      var first, rest := b[0], b[1..];
      assert a + b == (a + [first]) + rest;
      assert [first] + rest == b;
      TotalSplit([first], rest);
      assert Total([first]) == first.width;
      DecodeSuffix(a + [first], rest);
      PrefixPath(a + [first], rest);
      FirstComponent(a, first, rest);
      assert Ids(b) == [first.id] + Ids(rest);
    }
  }

  lemma FirstComponent(a: seq<Component>, first: Component, rest: seq<Component>)
    requires Fits(a + [first] + rest) && Total(a + [first] + rest) < WORD
    ensures ComponentAt(Encode(a + [first] + rest), Total(rest), first.width) == first.id
  {
    hide LShr, BitAnd, Append, HighestBit;
    var prefix := a + [first];
    PrefixPath(prefix, rest);
    TotalSplit(prefix, rest);
    TotalSplit(a, [first]);
    assert Total([first]) == first.width;
    assert prefix[..|prefix| - 1] == a;
    FitsPrefix(prefix, rest, prefix + rest);
    FitsPrefix(a, [first], prefix);
    assert (prefix + rest)[|a|] == first;
    EncodeExact(a);
    ReadLast(Encode(a), first.width, first.id);
    ShiftByNothing(Encode(prefix));
  }

  /**
   Path round trip: the decoder, starting at the highest set bit, recovers the ids in order and
   stops exactly at position 0, if and only if the leading 1 and all components fit 64 bits.
   */
  lemma PathRoundTrip(components: seq<Component>)
    requires Fits(components) && Narrow(components)
    ensures ReadsBack(components) <==> 1 + Total(components) <= WORD
  {
    hide Encode, Fits;
    StartsRightExactlyWhenItFits(components);
    if Total(components) < WORD {
      assert [] + components == components;
      DecodeSuffix([], components);
    } else {
      DecodeConsumes(Encode(components), StartPosition(Encode(components)), components);
    }
  }

  lemma {:induction false} DecodeConsumes(path: nat, position: nat, components: seq<Component>)
    ensures var d := Decode(path, position, components); d.Decoded? ==> d.position == position - Total(components)
    decreases |components|
  {
    if components != [] && position >= components[0].width {
      DecodeConsumes(path, position - components[0].width, components[1..]);
      assert [components[0]] + components[1..] == components;
      TotalSplit([components[0]], components[1..]);
      assert Total([components[0]]) == components[0].width;
    }
  }
}
