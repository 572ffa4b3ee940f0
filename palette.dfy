/**
  Colour assignment: `generate_color_palette` cycles through a fixed list
  of fifteen colours, and the colour map gives each category, in the
  order categories are first seen, the next colour of that cycle.
 */
module Palette {
  import opened Dicts

  const Colors: seq<string> := [
    "#4e79a7", "#f28e2b", "#e15759", "#76b7b2", "#59a14f",
    "#edc948", "#b07aa1", "#ff9da7", "#9c755f", "#bab0ac",
    "#6b6ecf", "#b5cf6b", "#d6616b", "#ce6dbd", "#de9ed6"
  ]

  /** `[colors[i % len(colors)] for i in range(n)]` */
  function GenerateColorPalette(n: nat): (r: seq<string>)
    ensures |r| == n && forall i :: 0 <= i < n ==> r[i] in Colors
  {
    seq(n, i requires 0 <= i < n => Colors[i % |Colors|])
  }

  /** The palette has `n` entries and entry `i` is colour `i mod 15`. */
  lemma PaletteEntries(n: nat, i: nat)
    requires i < n
    ensures |GenerateColorPalette(n)| == n && GenerateColorPalette(n)[i] == Colors[i % 15]
  {
  }

  /** The palette repeats with period 15. */
  lemma PalettePeriodic(n: nat, i: nat)
    requires i + 15 < n
    ensures GenerateColorPalette(n)[i + 15] == GenerateColorPalette(n)[i]
  {
    assert (i + 15) % 15 == i % 15;
  }

  /** A longer palette starts with a shorter one: a colour does not depend on how many are asked for. */
  lemma PalettePrefix(n: nat, m: nat)
    requires n <= m
    ensures GenerateColorPalette(m)[..n] == GenerateColorPalette(n)
  {
  }

  /**
    A proof device with no counterpart in the program: the position of a
    palette colour, read from its first two hex digits (which already tell
    the fifteen apart). Mapping each colour back to its index shows the
    fifteen colours are distinct without comparing the 105 pairs.
   */
  function Slot(c: string): (k: int)
    requires |c| >= 3
    ensures -1 <= k < 15
  {
    match (c[1], c[2])
    case ('4', 'e') => 0
    case ('f', '2') => 1
    case ('e', '1') => 2
    case ('7', '6') => 3
    case ('5', '9') => 4
    case ('e', 'd') => 5
    case ('b', '0') => 6
    case ('f', 'f') => 7
    case ('9', 'c') => 8
    case ('b', 'a') => 9
    case ('6', 'b') => 10
    case ('b', '5') => 11
    case ('d', '6') => 12
    case ('c', 'e') => 13
    case ('d', 'e') => 14
    case _ => -1
  }

  /** Each colour sits at the slot its digits name (the other half of the proof device above). */
  lemma ColorSlot(k: nat)
    requires k < 15
    ensures |Colors[k]| >= 3 && Slot(Colors[k]) == k
  {
    if k == 0 {} else if k == 1 {} else if k == 2 {} else if k == 3 {} else if k == 4 {}
    else if k == 5 {} else if k == 6 {} else if k == 7 {} else if k == 8 {} else if k == 9 {}
    else if k == 10 {} else if k == 11 {} else if k == 12 {} else if k == 13 {} else {}
  }

  /** The fifteen colours are pairwise different. */
  lemma ColorsDistinct(a: nat, b: nat)
    requires a < b < 15
    ensures Colors[a] != Colors[b]
  {
    ColorSlot(a);
    ColorSlot(b);
  }

  /** Below fifteen, an index is its own colour position. */
  lemma SmallIndex(i: nat)
    requires i < 15
    ensures i % 15 == i
  {
  }

  /** No two of the first fifteen palette entries share a colour. */
  lemma PaletteDistinct(n: nat, i: nat, j: nat)
    requires i < j < n && j < 15
    ensures GenerateColorPalette(n)[i] != GenerateColorPalette(n)[j]
  {
    PaletteEntries(n, i);
    PaletteEntries(n, j);
    SmallIndex(i);
    SmallIndex(j);
    ColorsDistinct(i, j);
  }

  /** `Series.unique()`: the distinct values, in the order they are first seen. */
  function Unique(s: seq<string>): (u: seq<string>)
    ensures forall x :: x in u <==> x in s
    ensures forall i, j :: 0 <= i < j < |u| ==> u[i] != u[j]
  {
    if |s| == 0 then []
    else
      var p := Unique(s[..|s| - 1]);
      assert forall x :: x in s <==> x in s[..|s| - 1] || x == s[|s| - 1] by {
        assert s == s[..|s| - 1] + [s[|s| - 1]];
      }
      if s[|s| - 1] in p then p else p + [s[|s| - 1]]
  }

  /** Position of the first occurrence of `x` in `s`. */
  function FirstIndex(s: seq<string>, x: string): (i: nat)
    requires x in s
    ensures i < |s| && s[i] == x && forall j :: 0 <= j < i ==> s[j] != x
  {
    if s[0] == x then 0 else 1 + FirstIndex(s[1..], x)
  }

  /** The distinct values are listed in the order of their first occurrence. */
  lemma {:induction false} UniqueFirstSeenOrder(s: seq<string>, i: nat, j: nat)
    requires i < j < |Unique(s)|
    ensures FirstIndex(s, Unique(s)[i]) < FirstIndex(s, Unique(s)[j])
  {
    var n := |s| - 1;
    var front := s[..n];
    var p := Unique(front);
    var u := Unique(s);
    assert u[i] in s && u[j] in s;
    if j < |p| {
      UniqueFirstSeenOrder(front, i, j);
      FirstIndexOfPrefix(s, n, u[i]);
      FirstIndexOfPrefix(s, n, u[j]);
    } else {
      assert u[j] == s[n] && s[n] !in front;
      FirstIndexOfPrefix(s, n, u[i]);
    }
  }

  /** An element already in a prefix has its first occurrence there. */
  lemma FirstIndexOfPrefix(s: seq<string>, n: nat, x: string)
    requires n <= |s| && x in s[..n]
    ensures FirstIndex(s, x) == FirstIndex(s[..n], x)
  {
    var b := FirstIndex(s[..n], x);
    assert s[b] == x;
  }

  /** `dict(zip(categories, colors))` with `categories = data['categorie'].unique()`. */
  function ColorMap(categories: seq<string>): (m: map<string, string>)
    ensures forall c :: c in m ==> m[c] in Colors
  {
    var u := Unique(categories);
    ZipMapValues(u, GenerateColorPalette(|u|));
    ZipMap(u, GenerateColorPalette(|u|))
  }

  /** The colour map has a colour for every category and for nothing else. */
  lemma ColorMapKeys(categories: seq<string>, c: string)
    ensures c in ColorMap(categories) <==> c in categories
  {
    var u := Unique(categories);
    ZipMapKeys(u, GenerateColorPalette(|u|), c);
  }

  /** Every category has a colour, and the `k`-th category first seen gets colour `k mod 15`. */
  lemma ColorMapSpec(categories: seq<string>, k: nat)
    requires k < |Unique(categories)|
    ensures var u := Unique(categories);
      u[k] in ColorMap(categories) && ColorMap(categories)[u[k]] == Colors[k % 15]
    ensures forall c :: c in ColorMap(categories) <==> c in categories
  {
    var u := Unique(categories);
    ZipMapDistinct(u, GenerateColorPalette(|u|), k);
    forall c
      ensures c in ColorMap(categories) <==> c in categories
    {
      ZipMapKeys(u, GenerateColorPalette(|u|), c);
    }
  }
}
