/** Templates with a fixed list of slots, such as "{name}": single-pass replacement, and reading a template
    once into characters and slots. */
module Template {
  import opened Wrappers

  predicate StartsWith(s: string, prefix: string) { |prefix| <= |s| && s[..|prefix|] == prefix }

  // ---------- replacement ----------

  datatype Pair = Pair(from: string, to: string)

  predicate Replaceable(pairs: seq<Pair>) { forall p :: p in pairs ==> p.from != "" }

  /** The first pair, in argument order, whose old string starts the text. */
  function FirstMatch(pairs: seq<Pair>, s: string): (p: Option<Pair>)
    ensures p.Some? ==> p.value in pairs && StartsWith(s, p.value.from)
  {
    if pairs == [] then None
    else if StartsWith(s, pairs[0].from) then Some(pairs[0])
    else FirstMatch(pairs[1..], s)
  }

  /** strings.Replacer for non-empty old strings: left to right, without overlaps, over the template only. */
  function Replace(pairs: seq<Pair>, s: string): string
    requires Replaceable(pairs)
    decreases |s|
  {
    if s == "" then ""
    else
      match FirstMatch(pairs, s)
      case Some(p) => p.to + Replace(pairs, s[|p.from|..])
      case None => [s[0]] + Replace(pairs, s[1..])
  }

  // ---------- slots ----------

  /** A slot opens with its only opening brace and is more than that. */
  predicate IsSlot(p: string) { 2 <= |p| && p[0] == '{' && forall i :: 1 <= i < |p| ==> p[i] != '{' }

  /** Slots of which none starts with another. */
  predicate AreSlots(slots: seq<string>) {
    && (forall i {:trigger IsSlot(slots[i])} :: 0 <= i < |slots| ==> IsSlot(slots[i]))
    && (forall i, j {:trigger StartsWith(slots[i], slots[j])} ::
          0 <= i < |slots| && 0 <= j < |slots| && i != j ==> !StartsWith(slots[i], slots[j]))
  }

  type Slots = slots: seq<string> | AreSlots(slots) witness []

  /** The first slot from number k on that starts the text. */
  function SlotFrom(slots: Slots, s: string, k: nat): (i: Option<nat>)
    ensures i.Some? ==> k <= i.value < |slots| && StartsWith(s, slots[i.value])
    decreases |slots| - k
  {
    if |slots| <= k then None
    else if StartsWith(s, slots[k]) then Some(k)
    else SlotFrom(slots, s, k + 1)
  }

  function SlotAt(slots: Slots, s: string): (i: Option<nat>)
    ensures i.Some? ==> i.value < |slots| && slots[i.value] != "" && StartsWith(s, slots[i.value])
  {
    var i := SlotFrom(slots, s, 0);
    assert i.Some? ==> IsSlot(slots[i.value]);
    i
  }

  lemma {:induction false} SlotFromFinds(slots: Slots, s: string, k: nat, i: nat)
    requires k <= i < |slots| && StartsWith(s, slots[i])
    ensures SlotFrom(slots, s, k).Some?
    decreases |slots| - k
  {
    if k < i {
      SlotFromFinds(slots, s, k + 1, i);
    }
  }

  lemma PrefixesNest(s: string, p: string, q: string)
    requires StartsWith(s, p) && StartsWith(s, q) && |p| <= |q|
    ensures StartsWith(q, p)
  {
  }

  lemma OnlySlotAt(slots: Slots, s: string, i: nat, j: nat)
    requires i < |slots| && j < |slots| && StartsWith(s, slots[i]) && StartsWith(s, slots[j])
    ensures i == j
  {
    if |slots[i]| <= |slots[j]| {
      PrefixesNest(s, slots[i], slots[j]);
    } else {
      PrefixesNest(s, slots[j], slots[i]);
    }
  }

  lemma SlotAtIs(slots: Slots, s: string, i: nat)
    requires i < |slots|
    ensures SlotAt(slots, s) == Some(i) <==> StartsWith(s, slots[i])
  {
    if StartsWith(s, slots[i]) {
      SlotFromFinds(slots, s, 0, i);
      OnlySlotAt(slots, s, SlotAt(slots, s).value, i);
    }
  }

  lemma SlotOpensWithBrace(slots: Slots, s: string)
    ensures SlotAt(slots, s).Some? ==> s != "" && s[0] == '{'
  {
    if SlotAt(slots, s).Some? {
      var p := slots[SlotAt(slots, s).value];
      assert IsSlot(p) && s[..|p|][0] == s[0];
    }
  }

  /** The values of the slots, where there are any. */
  type Values = seq<Option<string>>

  function PairsFrom(slots: Slots, values: Values, k: nat): seq<Pair>
    requires |slots| == |values|
    decreases |slots| - k
  {
    if |slots| <= k then []
    else if values[k].None? then PairsFrom(slots, values, k + 1)
    else [Pair(slots[k], values[k].value)] + PairsFrom(slots, values, k + 1)
  }

  function Pairs(slots: Slots, values: Values): seq<Pair>
    requires |slots| == |values|
  {
    PairsFrom(slots, values, 0)
  }

  lemma {:induction false} PairsAreReplaceable(slots: Slots, values: Values, k: nat)
    requires |slots| == |values|
    ensures Replaceable(PairsFrom(slots, values, k))
    decreases |slots| - k
  {
    if k < |slots| {
      assert IsSlot(slots[k]);
      PairsAreReplaceable(slots, values, k + 1);
    }
  }

  lemma MatchStep(slots: Slots, values: Values, s: string, k: nat)
    requires |slots| == |values| && k < |slots|
    ensures FirstMatch(PairsFrom(slots, values, k), s)
         == if values[k].Some? && StartsWith(s, slots[k]) then Some(Pair(slots[k], values[k].value))
            else FirstMatch(PairsFrom(slots, values, k + 1), s)
  {
  }

  lemma NoLaterSlot(slots: Slots, s: string, k: nat)
    requires k < |slots| && StartsWith(s, slots[k])
    ensures SlotFrom(slots, s, k + 1).None?
  {
    var i := SlotFrom(slots, s, k + 1);
    if i.Some? {
      OnlySlotAt(slots, s, k, i.value);
    }
  }

  /** The pair of a slot, if it has a value. */
  function PairOf(slots: Slots, values: Values, i: Option<nat>): Option<Pair>
    requires |slots| == |values| && (i.Some? ==> i.value < |slots|)
  {
    if i.Some? && values[i.value].Some? then Some(Pair(slots[i.value], values[i.value].value)) else None
  }

  /** Among the pairs, the one that matches is that of the slot at the start, if it has a value. */
  lemma {:induction false} MatchFrom(slots: Slots, values: Values, s: string, k: nat)
    requires |slots| == |values|
    ensures FirstMatch(PairsFrom(slots, values, k), s) == PairOf(slots, values, SlotFrom(slots, s, k))
    decreases |slots| - k
  {
    if k < |slots| {
      MatchFrom(slots, values, s, k + 1);
      MatchStep(slots, values, s, k);
      if StartsWith(s, slots[k]) {
        NoLaterSlot(slots, s, k);
      }
    }
  }

  // ---------- the template read once ----------

  datatype Token = Char(c: char) | Slot(i: nat)

  /** A token as it is written in the template. */
  function Written(slots: Slots, t: Token): string
    requires t.Slot? ==> t.i < |slots|
  {
    match t
    case Char(c) => [c]
    case Slot(i) => slots[i]
  }

  /** The token a text starts with. */
  function Head(slots: Slots, s: string): (t: Token)
    requires s != ""
    ensures t.Slot? ==> t.i < |slots|
    ensures Written(slots, t) != "" && StartsWith(s, Written(slots, t))
  {
    match SlotAt(slots, s)
    case Some(i) => Slot(i)
    case None => Char(s[0])
  }

  function Tokenize(slots: Slots, s: string): seq<Token>
    decreases |s|
  {
    if s == "" then []
    else [Head(slots, s)] + Tokenize(slots, s[|Written(slots, Head(slots, s))|..])
  }

  /** The slots of the tokens are among those listed. */
  ghost predicate OfSlots(slots: Slots, ts: seq<Token>) {
    forall k :: 0 <= k < |ts| && ts[k].Slot? ==> ts[k].i < |slots|
  }

  /** A slot takes its value, or stays as it is written. */
  function Fill(slots: Slots, values: Values, t: Token): string
    requires |slots| == |values|
  {
    match t
    case Char(c) => [c]
    case Slot(i) => if |slots| <= i then "" else if values[i].Some? then values[i].value else slots[i]
  }

  function FillAll(slots: Slots, values: Values, ts: seq<Token>): string
    requires |slots| == |values|
  {
    if ts == [] then "" else Fill(slots, values, ts[0]) + FillAll(slots, values, ts[1..])
  }

  function NoValues(slots: Slots): (values: Values)
    ensures |values| == |slots|
  {
    seq(|slots|, _ => None)
  }

  /** Tokens as they are written: filled with no values at all. */
  function Show(slots: Slots, ts: seq<Token>): string {
    FillAll(slots, NoValues(slots), ts)
  }

  /** What single-pass replacement makes of a template. */
  function Rendered(slots: Slots, values: Values, s: string): string
    requires |slots| == |values|
  {
    FillAll(slots, values, Tokenize(slots, s))
  }

  lemma FillStep(slots: Slots, values: Values, t: Token, ts: seq<Token>)
    requires |slots| == |values|
    ensures FillAll(slots, values, [t] + ts) == Fill(slots, values, t) + FillAll(slots, values, ts)
  {
  }

  // ---------- replacement is reading once and filling ----------

  /** Text without an opening brace passes through a replacement unchanged. */
  lemma {:induction false} ReplaceSkips(slots: Slots, values: Values, u: string, rest: string)
    requires |slots| == |values| && Replaceable(Pairs(slots, values)) && '{' !in u
    ensures Replace(Pairs(slots, values), u + rest) == u + Replace(Pairs(slots, values), rest)
  {
    if u == "" {
      assert u + rest == rest;
    } else {
      var s := u + rest;
      assert s[0] == u[0] && u[0] in u && s[1..] == u[1..] + rest;
      MatchFrom(slots, values, s, 0);
      SlotOpensWithBrace(slots, s);
      ReplaceSkips(slots, values, u[1..], rest);
    }
  }

  /** A slot without a value passes through too. */
  lemma ReplaceLeaves(slots: Slots, values: Values, i: nat, rest: string)
    requires |slots| == |values| && Replaceable(Pairs(slots, values))
    requires i < |slots| && values[i].None?
    ensures Replace(Pairs(slots, values), slots[i] + rest) == slots[i] + Replace(Pairs(slots, values), rest)
  {
    var p := slots[i];
    assert IsSlot(p);
    var s, tail := p + rest, p[1..];
    StartsWithSelf(p, rest);
    SlotAtIs(slots, s, i);
    MatchFrom(slots, values, s, 0);
    assert s[0] == p[0] && s[1..] == tail + rest;
    ReplaceSkips(slots, values, tail, rest);
    assert [p[0]] + (tail + Replace(Pairs(slots, values), rest)) == p + Replace(Pairs(slots, values), rest);
  }

  lemma StartsWithSelf(p: string, rest: string)
    ensures StartsWith(p + rest, p) && (p + rest)[|p|..] == rest
  {
  }

  lemma ReplaceSlot(slots: Slots, values: Values, i: nat, rest: string)
    requires |slots| == |values| && Replaceable(Pairs(slots, values)) && i < |slots|
    ensures Replace(Pairs(slots, values), slots[i] + rest)
         == Fill(slots, values, Slot(i)) + Replace(Pairs(slots, values), rest)
  {
    if values[i].None? {
      ReplaceLeaves(slots, values, i, rest);
    } else {
      StartsWithSelf(slots[i], rest);
      SlotAtIs(slots, slots[i] + rest, i);
      MatchFrom(slots, values, slots[i] + rest, 0);
    }
  }

  /** The token that starts this text is this one, and the rest follows it. */
  ghost predicate Starts(slots: Slots, t: Token, rest: string) {
    (t.Slot? ==> t.i < |slots|) && Written(slots, t) + rest != "" && Head(slots, Written(slots, t) + rest) == t
  }

  lemma HeadStarts(slots: Slots, s: string)
    requires s != ""
    ensures var t := Head(slots, s);
            var rest := s[|Written(slots, t)|..];
            |rest| < |s| && s == Written(slots, t) + rest && Starts(slots, t, rest)
  {
  }

  lemma RenderStep(slots: Slots, values: Values, t: Token, rest: string)
    requires |slots| == |values| && Starts(slots, t, rest)
    ensures Rendered(slots, values, Written(slots, t) + rest) == Fill(slots, values, t) + Rendered(slots, values, rest)
  {
    StartsWithSelf(Written(slots, t), rest);
    FillStep(slots, values, t, Tokenize(slots, rest));
  }

  lemma ReplaceStep(slots: Slots, values: Values, t: Token, rest: string)
    requires |slots| == |values| && Replaceable(Pairs(slots, values)) && Starts(slots, t, rest)
    ensures Replace(Pairs(slots, values), Written(slots, t) + rest)
         == Fill(slots, values, t) + Replace(Pairs(slots, values), rest)
  {
    if t.Slot? {
      ReplaceSlot(slots, values, t.i, rest);
    } else {
      MatchFrom(slots, values, [t.c] + rest, 0);
      StartsWithSelf([t.c], rest);
    }
  }

  /** One left-to-right replacement with the pairs of the slots that have a value is the template read once,
      with each slot filled: a slot without a value hides no other, and no inserted value is read again. */
  lemma {:induction false} ReplaceIsRendered(slots: Slots, values: Values, s: string)
    requires |slots| == |values| && Replaceable(Pairs(slots, values))
    ensures Replace(Pairs(slots, values), s) == Rendered(slots, values, s)
    decreases |s|
  {
    if s != "" {
      HeadStarts(slots, s);
      var t := Head(slots, s);
      var rest := s[|Written(slots, t)|..];
      ReplaceIsRendered(slots, values, rest);
      RenderStep(slots, values, t, rest);
      ReplaceStep(slots, values, t, rest);
    }
  }

  lemma {:induction false} ReplaceNothing(s: string)
    ensures Replace([], s) == s
  {
    if s != "" {
      ReplaceNothing(s[1..]);
    }
  }

  // ---------- the reading is faithful and unique ----------

  /** The tokens are the whole template: showing them gives it back. */
  lemma {:induction false} TokensAreTheTemplate(slots: Slots, s: string)
    ensures Show(slots, Tokenize(slots, s)) == s
    decreases |s|
  {
    if s != "" {
      HeadStarts(slots, s);
      var t := Head(slots, s);
      var rest := s[|Written(slots, t)|..];
      TokensAreTheTemplate(slots, rest);
      RenderStep(slots, NoValues(slots), t, rest);
    }
  }

  /** No slot is spelled out in characters. */
  ghost predicate Proper(slots: Slots, ts: seq<Token>)
  {
    && OfSlots(slots, ts)
    && forall k :: 0 <= k < |ts| && ts[k].Char? ==> SlotAt(slots, Show(slots, ts[k..])) == None
  }

  lemma ProperTail(slots: Slots, ts: seq<Token>)
    requires ts != [] && Proper(slots, ts)
    ensures Proper(slots, ts[1..])
    ensures ts[0].Char? ==> SlotAt(slots, Show(slots, ts)).None?
  {
    var tail := ts[1..];
    assert ts[0..] == ts;
    forall k | 0 <= k < |tail| && tail[k].Char? ensures SlotAt(slots, Show(slots, tail[k..])) == None {
      assert tail[k] == ts[k + 1] && tail[k..] == ts[k + 1..];
    }
  }

  /** And they are its only reading that spells out no slot. */
  lemma {:induction false} ReadingIsUnique(slots: Slots, ts: seq<Token>)
    requires Proper(slots, ts)
    ensures Tokenize(slots, Show(slots, ts)) == ts
  {
    if ts != [] {
      var p, rest := Written(slots, ts[0]), Show(slots, ts[1..]);
      ProperTail(slots, ts);
      ReadingIsUnique(slots, ts[1..]);
      StartsWithSelf(p, rest);
      if ts[0].Slot? {
        assert IsSlot(p);
        SlotAtIs(slots, p + rest, ts[0].i);
      }
      assert Head(slots, p + rest) == ts[0];
    }
  }

  // ---------- placeholders are independent ----------

  /** A slot that starts a text ends before the next opening brace. */
  lemma EndsBeforeBrace(p: string, before: string, after: string)
    requires IsSlot(p) && before != "" && after != "" && after[0] == '{'
    ensures StartsWith(before + after, p) <==> StartsWith(before, p)
  {
    var s := before + after;
    assert s[|before|] == after[0];
    if StartsWith(s, p) {
      assert forall i :: 1 <= i < |p| ==> s[i] == s[..|p|][i] != '{';
      assert s[..|p|] == before[..|p|];
    }
    if StartsWith(before, p) {
      assert s[..|p|] == before[..|p|];
    }
  }

  lemma HeadBefore(slots: Slots, before: string, after: string)
    requires before != "" && after != "" && after[0] == '{'
    ensures Head(slots, before + after) == Head(slots, before)
  {
    var i, j := SlotAt(slots, before), SlotAt(slots, before + after);
    if i.Some? {
      assert IsSlot(slots[i.value]);
      EndsBeforeBrace(slots[i.value], before, after);
      SlotAtIs(slots, before + after, i.value);
    } else if j.Some? {
      assert IsSlot(slots[j.value]);
      EndsBeforeBrace(slots[j.value], before, after);
      SlotAtIs(slots, before, j.value);
    }
  }

  ghost predicate Apart(slots: Slots, values: Values, before: string, after: string)
    requires |slots| == |values|
  {
    Rendered(slots, values, before + after) == Rendered(slots, values, before) + Rendered(slots, values, after)
  }

  lemma ApartStep(slots: Slots, values: Values, t: Token, rest: string, after: string)
    requires |slots| == |values| && Starts(slots, t, rest) && Starts(slots, t, rest + after)
    requires Apart(slots, values, rest, after)
    ensures Apart(slots, values, Written(slots, t) + rest, after)
  {
    RenderStep(slots, values, t, rest);
    RenderStep(slots, values, t, rest + after);
    Associative(Written(slots, t), rest, after);
    Associative(Fill(slots, values, t), Rendered(slots, values, rest), Rendered(slots, values, after));
  }

  /** A text followed by an opening brace renders on its own, and so does what starts with the brace. */
  lemma {:induction false} RendersApart(slots: Slots, values: Values, before: string, after: string)
    requires |slots| == |values| && after != "" && after[0] == '{'
    ensures Apart(slots, values, before, after)
    decreases |before|
  {
    if before == "" {
      assert before + after == after;
    } else {
      HeadStarts(slots, before);
      HeadBefore(slots, before, after);
      var t := Head(slots, before);
      var rest := before[|Written(slots, t)|..];
      Associative(Written(slots, t), rest, after);
      RendersApart(slots, values, rest, after);
      ApartStep(slots, values, t, rest, after);
    }
  }

  lemma Associative(x: string, y: string, z: string)
    ensures x + (y + z) == x + y + z
  {
  }

  /** Wherever a slot stands, it is replaced on its own: the text before it and after it render as they would
      alone, and its value, whatever it contains, is copied as it is. */
  lemma SlotsAreIndependent(slots: Slots, values: Values, before: string, i: nat, after: string)
    requires |slots| == |values| && i < |slots|
    ensures Rendered(slots, values, before + slots[i] + after)
         == Rendered(slots, values, before)
            + (if values[i].Some? then values[i].value else slots[i])
            + Rendered(slots, values, after)
  {
    var p := slots[i];
    assert IsSlot(p);
    Associative(before, p, after);
    RendersApart(slots, values, before, p + after);
    StartsWithSelf(p, after);
    SlotAtIs(slots, p + after, i);
    RenderStep(slots, values, Slot(i), after);
    Associative(Rendered(slots, values, before), Fill(slots, values, Slot(i)), Rendered(slots, values, after));
  }
}
