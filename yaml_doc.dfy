/**
 * The documents the reduced YAML reader reads back: nested mappings and
 * lists written in the block style `parse_block` expects (a mapping's
 * nested value and a list item's nested block two columns deeper), and
 * the proof that `parse_block` applied to the rendered lines returns the
 * value and stops right after them.
 */
module YamlDoc {
  import opened Wrappers
  import opened Strs
  import opened Values
  import opened Yaml

  /** A key written bare: lower-case letters and '_', and none of the keywords. */
  predicate PlainKey(k: string) {
    && k != []
    && (forall j :: 0 <= j < |k| ==> ('a' <= k[j] <= 'z') || k[j] == '_')
    && !IsNullWord(k) && !IsTrueWord(k) && !IsFalseWord(k)
  }

  /** A mapping or a list that the one-line syntax cannot spell. */
  predicate Nested(v: Value) { (v.Dict? || v.List?) && !Inline(v) }

  /** A list item written after "- "; a ':' there would open a mapping instead. */
  predicate ItemScalar(v: Value) { Inline(v) && ':' !in RenderScalar(v) }

  /**
   * A value written as a block: a mapping with distinct plain keys, or a
   * non-empty list, whose members are one-line scalars or blocks in turn.
   */
  ghost predicate Doc(v: Value)
    decreases v, 2
  {
    match v
    case Dict(es) => UniqueKeys(es) && DocEntries(v, es)
    case List(xs) => xs != [] && DocItems(v, xs)
    case _ => false
  }

  /** Every entry of `parent` is a plain key with a one-line or block value. */
  ghost predicate DocEntries(parent: Value, es: seq<(string, Value)>)
    decreases parent, 1, |es|
  {
    es == [] || (es[0].1 < parent && GoodEntry(es[0]) && DocEntries(parent, es[1..]))
  }

  ghost predicate GoodEntry(kv: (string, Value))
    decreases kv.1, 3
  {
    PlainKey(kv.0) && (Inline(kv.1) || (Nested(kv.1) && Doc(kv.1)))
  }

  /** Every item of `parent` is a one-line scalar or a block. */
  ghost predicate DocItems(parent: Value, xs: seq<Value>)
    decreases parent, 1, |xs|
  {
    xs == [] || (xs[0] < parent && GoodItem(xs[0]) && DocItems(parent, xs[1..]))
  }

  ghost predicate GoodItem(x: Value)
    decreases x, 3
  {
    ItemScalar(x) || (Nested(x) && Doc(x))
  }

  /** A mapping item whose first value fits on the "- key: value" line. */
  predicate InlineHead(x: Value) { x.Dict? && x.entries != [] && Inline(x.entries[0].1) }

  // ------------------------------------------------------------ rendering

  /** The lines of a block at indent `e`. */
  function RenderBlock(v: Value, e: nat): seq<Line>
    requires Doc(v)
    decreases v, 2
  {
    if v.Dict? then RenderEntries(v, v.entries, e) else RenderItems(v, v.items, e)
  }

  function RenderEntries(parent: Value, es: seq<(string, Value)>, e: nat): seq<Line>
    requires DocEntries(parent, es)
    decreases parent, 1, |es|
  {
    if es == [] then [] else RenderEntry(parent, es[0], e) + RenderEntries(parent, es[1..], e)
  }

  /** What follows "key:" on an entry's line: " scalar", or nothing when a block follows. */
  function EntryTail(v: Value): string {
    if Inline(v) then " " + RenderScalar(v) else []
  }

  /** "key: scalar", or "key:" followed by the value's block at `e + 2`. */
  function RenderEntry(parent: Value, kv: (string, Value), e: nat): seq<Line>
    requires kv.1 < parent && GoodEntry(kv)
    decreases parent, 0
  {
    var head := (e, kv.0 + ":" + EntryTail(kv.1));
    if Inline(kv.1) then [head] else [head] + RenderBlock(kv.1, e + 2)
  }

  function RenderItems(parent: Value, xs: seq<Value>, e: nat): seq<Line>
    requires DocItems(parent, xs)
    decreases parent, 1, |xs|
  {
    if xs == [] then [] else RenderItem(parent, xs[0], e) + RenderItems(parent, xs[1..], e)
  }

  /**
   * "- scalar"; "- key: scalar" with the mapping's other keys at `e + 2`;
   * or "-" followed by the item's block at `e + 2`.
   */
  function RenderItem(parent: Value, x: Value, e: nat): seq<Line>
    requires x < parent && GoodItem(x)
    decreases parent, 0
  {
    if Inline(x) then [(e, "- " + RenderScalar(x))]
    else if InlineHead(x) then
      assert Doc(x) && DocEntries(x, x.entries);
      [(e, "- " + x.entries[0].0 + ":" + EntryTail(x.entries[0].1))]
        + RenderEntries(x, x.entries[1..], e + 2)
    else [(e, "-")] + RenderBlock(x, e + 2)
  }

  // --------------------------------------------------------- the lines

  /** The lines from `i` on start with `r`. */
  predicate At(ls: seq<Line>, i: nat, r: seq<Line>) {
    i + |r| <= |ls| && ls[i..i + |r|] == r
  }

  /** Line `j` ends a block at indent `e`: there is none, or it is shallower. */
  predicate Below(ls: seq<Line>, j: nat, e: nat) { j <= |ls| && (j == |ls| || ls[j].0 < e) }

  lemma AtSplit(ls: seq<Line>, i: nat, a: seq<Line>, b: seq<Line>)
    requires At(ls, i, a + b)
    ensures At(ls, i, a) && At(ls, i + |a|, b)
  {
    assert ls[i..i + |a|] == (a + b)[..|a|] == a;
    assert ls[i + |a|..i + |a| + |b|] == (a + b)[|a|..] == b;
  }

  lemma AtFirst(ls: seq<Line>, i: nat, r: seq<Line>)
    requires At(ls, i, r) && r != []
    ensures i < |ls| && ls[i] == r[0]
  {
    assert ls[i..i + |r|][0] == ls[i];
  }

  /** A key line splits back into the key and the stripped text after ':'. */
  lemma KeyLine(k: string, tail: string)
    requires PlainKey(k)
    ensures var c := k + ":" + tail;
      ':' in c && !StartsWith(c, "-") && KeyAndRest(c) == (k, Strip(tail))
  {
    KeyLineHead(k, tail);
    KeyLineSplits(k, tail);
  }

  /** The text after ':' strips to the rendered scalar, or to nothing. */
  lemma StripEntryTail(v: Value)
    ensures Strip(EntryTail(v)) == if Inline(v) then RenderScalar(v) else []
  {
    if Inline(v) {
      StripPadded(RenderScalar(v));
    }
  }

  lemma KeyLineHead(k: string, tail: string)
    requires PlainKey(k)
    ensures !StartsWith(k + ":" + tail, "-")
  {
    assert (k + ":" + tail)[0] == k[0];
  }

  lemma KeyLineSplits(k: string, tail: string)
    requires PlainKey(k)
    ensures var c := k + ":" + tail; ':' in c && KeyAndRest(c) == (k, Strip(tail))
  {
    var c := k + ":" + tail;
    assert c[|k|] == ':';
    SplitAtFirst(k, tail);
    KeyParses(k);
  }

  /** Splitting at the first ':' finds the one after a key without ':'. */
  lemma SplitAtFirst(k: string, tail: string)
    requires ':' !in k
    ensures SplitAt(k + ":" + tail, ':') == (k, tail)
  {
    var c := k + ":" + tail;
    assert c[|k|] == ':';
    var parts := SplitAt(c, ':');
    assert parts.0 == c[..|k|] == k;
  }

  /** A plain key parses as the string it spells. */
  lemma KeyParses(k: string)
    requires PlainKey(k)
    ensures PyStr(ParseScalar(Strip(k))) == k
  {
    assert !IsSpace(k[0]) && !IsSpace(k[|k| - 1]);
    StripKeeps(k);
    assert !IsIntLiteral(k) by { assert !IsDigit(k[0]); }
    assert !IsQuoted(k) && !IsBracketed(k);
    assert ParseStripped(k) == Str(k);
  }

  /** "- t", or "-" alone, is a list item line whose text is `t`. */
  lemma ItemLine(t: string)
    requires t == [] || t[0] != ' '
    ensures var c := if t == [] then "-" else "- " + t; StartsWith(c, "-") && ItemText(c) == t
  {
    if t != [] {
      var c := "- " + t;
      assert c[1..] == [' '] + t;
      assert c[1..][1..] == t;
      assert LStripChar(t, ' ') == t;
    }
  }

  // ------------------------------------------------- one parser step each

  lemma EntriesStop(ls: seq<Line>, i: nat, e: nat, d: seq<(string, Value)>, quoteLine: bool)
    requires Below(ls, i, e)
    ensures Entries(ls, i, e, d, quoteLine) == (Ok(Dict(d)), i)
  {
  }

  lemma EntriesStep(
    ls: seq<Line>, i: nat, parent: Value, kv: (string, Value), e: nat,
    d: seq<(string, Value)>, quoteLine: bool, j: nat, d2: seq<(string, Value)>)
    requires LaidEntry(ls, i, parent, kv, e)
    requires EntryValue(ls, i, e, KeyAndRest(ls[i].1).1) == (Ok(kv.1), j) && Put(d, kv.0, kv.1) == d2
    ensures Entries(ls, i, e, d, quoteLine) == Entries(ls, j, e, d2, quoteLine)
  {
  }

  lemma ItemsStop(ls: seq<Line>, i: nat, e: nat, acc: seq<Value>)
    requires Below(ls, i, e)
    ensures Items(ls, i, e, acc) == (Ok(List(acc)), i)
  {
  }

  lemma ItemsStep(ls: seq<Line>, i: nat, e: nat, acc: seq<Value>, x: Value, j: nat)
    requires IsItemLine(ls, i, e) && Item(ls, i, e) == (Ok(x), j)
    ensures Items(ls, i, e, acc) == Items(ls, j, e, acc + [x])
  {
  }
  /** An entry line is a `key: rest` line of its mapping, not an item. */
  lemma EntryLine(l: Line, k: string, v: Value)
    requires l.1 == k + ":" + EntryTail(v) && PlainKey(k)
    ensures ':' in l.1 && !StartsWith(l.1, "-")
    ensures KeyAndRest(l.1) == (k, if Inline(v) then RenderScalar(v) else [])
  {
    KeyLine(k, EntryTail(v));
    StripEntryTail(v);
  }

  /** Moving the head of `es` onto the end of `d` keeps their concatenation. */
  lemma MoveHead<T>(d: seq<T>, es: seq<T>)
    requires es != []
    ensures (d + [es[0]]) + es[1..] == d + es
  {
    assert es == [es[0]] + es[1..];
  }

  /** Each entry of `es`, added to `d` in turn, brings a key not seen before. */
  ghost predicate FreshKeys(d: seq<(string, Value)>, es: seq<(string, Value)>)
    decreases |es|
  {
    es == [] || (!HasKey(d, es[0].0) && FreshKeys(d + [es[0]], es[1..]))
  }

  /** Distinct keys in `d + es` make every key of `es` fresh as it is added. */
  lemma {:induction false} UniqueFresh(d: seq<(string, Value)>, es: seq<(string, Value)>)
    requires UniqueKeys(d + es)
    ensures FreshKeys(d, es)
    decreases |es|
  {
    if es != [] {
      assert (d + es)[|d|] == es[0];
      assert !HasKey(d, es[0].0) by {
        forall k | 0 <= k < |d| ensures d[k].0 != es[0].0 {
          assert (d + es)[k] == d[k];
        }
      }
      assert d + [es[0]] + es[1..] == d + es;
      UniqueFresh(d + [es[0]], es[1..]);
    }
  }

  // ------------------------------------------------------------ heights

  /** The values of `es` all lie inside `parent`. */
  ghost predicate Within(parent: Value, es: seq<(string, Value)>)
    decreases |es|
  {
    es == [] || (es[0].1 < parent && Within(parent, es[1..]))
  }

  /** A mapping's values, from its `k`-th entry on, all lie inside it. */
  lemma {:induction false} EntriesWithinFrom(v: Value, k: nat)
    requires v.Dict? && k <= |v.entries|
    ensures Within(v, v.entries[k..])
    decreases |v.entries| - k
  {
    var es := v.entries[k..];
    if es != [] {
      assert es[0] == v.entries[k] && es[0] in v.entries;
      EntriesWithinFrom(v, k + 1);
      assert es[1..] == v.entries[k + 1..];
    }
  }

  lemma EntriesWithin(v: Value)
    requires v.Dict?
    ensures Within(v, v.entries)
  {
    EntriesWithinFrom(v, 0);
    assert v.entries[0..] == v.entries;
  }

  /** How many lines the block of `v` takes. */
  ghost function Height(v: Value): nat
    decreases v, 2
  {
    match v
    case Dict(es) => EntriesWithin(v); EntriesHeight(v, es)
    case List(xs) => ItemsHeight(xs)
    case _ => 0
  }

  ghost function EntriesHeight(parent: Value, es: seq<(string, Value)>): nat
    requires Within(parent, es)
    decreases parent, 1, |es|
  {
    if es == [] then 0 else EntryHeight(parent, es[0]) + EntriesHeight(parent, es[1..])
  }

  /** The key's line, and the value's block below it unless the value fits on that line. */
  ghost function EntryHeight(parent: Value, kv: (string, Value)): nat
    requires kv.1 < parent
    decreases parent, 0
  {
    if Inline(kv.1) then 1 else 1 + Height(kv.1)
  }

  ghost function ItemsHeight(xs: seq<Value>): nat
    decreases xs, 1
  {
    if xs == [] then 0 else ItemHeight(xs[0]) + ItemsHeight(xs[1..])
  }

  /** The "-" line, plus the mapping's other keys or the item's block below it. */
  ghost function ItemHeight(x: Value): nat
    decreases x, 3
  {
    if Inline(x) then 1
    else if InlineHead(x) then EntriesWithin(x); 1 + EntriesHeight(x, x.entries[1..])
    else 1 + Height(x)
  }

  // ------------------------------------------------- the rendered layout

  /**
   * The tests `parse_block` makes on a mapping line, as they come out for
   * `kv`: the key, and a text after ':' that parses as the value or is
   * empty when a block follows.
   */
  predicate EntryHead(c: string, kv: (string, Value)) {
    && ':' in c && !StartsWith(c, "-")
    && var kr := KeyAndRest(c);
       && kr.0 == kv.0
       && if Inline(kv.1) then kr.1 != [] && ParseScalar(kr.1) == kv.1 else kr.1 == []
  }

  /**
   * The lines from `i` on hold `v` as a block at indent `e`: the indent of
   * every head line and what the reader's tests find in its text, with
   * each nested block laid out right after its head. Only the tests
   * appear here, not the text itself.
   */
  ghost predicate LaidBlock(ls: seq<Line>, i: nat, v: Value, e: nat)
    decreases v, 2
  {
    match v
    case Dict(es) => UniqueKeys(es) && LaidEntries(ls, i, v, es, e)
    case List(xs) => xs != [] && LaidItems(ls, i, v, xs, e)
    case _ => false
  }

  ghost predicate LaidEntries(ls: seq<Line>, i: nat, parent: Value, es: seq<(string, Value)>, e: nat)
    decreases parent, 1, |es|
  {
    es == [] ||
      (&& es[0].1 < parent
       && LaidEntry(ls, i, parent, es[0], e)
       && LaidEntries(ls, i + EntryHeight(parent, es[0]), parent, es[1..], e))
  }

  ghost predicate LaidEntry(ls: seq<Line>, i: nat, parent: Value, kv: (string, Value), e: nat)
    decreases parent, 0
  {
    && kv.1 < parent
    && i < |ls| && ls[i].0 == e && EntryHead(ls[i].1, kv)
    && (Inline(kv.1) || LaidBlock(ls, i + 1, kv.1, e + 2))
  }

  ghost predicate LaidItems(ls: seq<Line>, i: nat, parent: Value, xs: seq<Value>, e: nat)
    decreases parent, 1, |xs|
  {
    xs == [] ||
      (&& xs[0] < parent
       && LaidItem(ls, i, parent, xs[0], e)
       && LaidItems(ls, i + ItemHeight(xs[0]), parent, xs[1..], e))
  }

  ghost predicate LaidItem(ls: seq<Line>, i: nat, parent: Value, x: Value, e: nat)
    decreases parent, 0
  {
    && x < parent && IsItemLine(ls, i, e)
    && var t := ItemText(ls[i].1);
       if Inline(x) then t != [] && ':' !in t && ParseScalar(t) == x
       else if InlineHead(x) then
         && EntryHead(t, x.entries[0]) && UniqueKeys(x.entries)
         && LaidEntries(ls, i + 1, x, x.entries[1..], e + 2)
       else t == [] && LaidBlock(ls, i + 1, x, e + 2)
  }

  // ------------------------------------------- rendered lines are laid out

  /** A rendered block has as many lines as its height. */
  lemma {:induction false} BlockHeight(v: Value, e: nat)
    requires Doc(v)
    ensures |RenderBlock(v, e)| == Height(v)
    decreases v, 2
  {
    if v.Dict? {
      EntriesWithin(v);
      EntriesHeightRendered(v, v.entries, e);
    } else {
      ItemsHeightRendered(v, v.items, e);
    }
  }

  lemma {:induction false} EntriesHeightRendered(parent: Value, es: seq<(string, Value)>, e: nat)
    requires DocEntries(parent, es)
    ensures Within(parent, es) && |RenderEntries(parent, es, e)| == EntriesHeight(parent, es)
    decreases parent, 1, |es|
  {
    if es != [] {
      EntryHeightRendered(parent, es[0], e);
      EntriesHeightRendered(parent, es[1..], e);
    }
  }

  lemma {:induction false} EntryHeightRendered(parent: Value, kv: (string, Value), e: nat)
    requires kv.1 < parent && GoodEntry(kv)
    ensures |RenderEntry(parent, kv, e)| == EntryHeight(parent, kv)
    decreases parent, 0
  {
    if !Inline(kv.1) {
      BlockHeight(kv.1, e + 2);
    }
  }

  lemma {:induction false} ItemsHeightRendered(parent: Value, xs: seq<Value>, e: nat)
    requires DocItems(parent, xs)
    ensures |RenderItems(parent, xs, e)| == ItemsHeight(xs)
    decreases parent, 1, |xs|
  {
    if xs != [] {
      ItemHeightRendered(parent, xs[0], e);
      ItemsHeightRendered(parent, xs[1..], e);
    }
  }

  lemma {:induction false} ItemHeightRendered(parent: Value, x: Value, e: nat)
    requires x < parent && GoodItem(x)
    ensures |RenderItem(parent, x, e)| == ItemHeight(x)
    decreases parent, 0
  {
    if !Inline(x) {
      if InlineHead(x) {
        assert Doc(x) && DocEntries(x, x.entries);
        EntriesHeightRendered(x, x.entries[1..], e + 2);
      } else {
        BlockHeight(x, e + 2);
      }
    }
  }

  /** Rendered lines pass the reader's tests as `LaidBlock` lists them. */
  lemma {:induction false} BlockLaid(ls: seq<Line>, i: nat, v: Value, e: nat)
    requires Doc(v) && At(ls, i, RenderBlock(v, e))
    ensures LaidBlock(ls, i, v, e)
    decreases v, 2
  {
    if v.Dict? {
      EntriesLaid(ls, i, v, v.entries, e);
    } else {
      ItemsLaid(ls, i, v, v.items, e);
    }
  }

  lemma {:induction false} EntriesLaid(ls: seq<Line>, i: nat, parent: Value, es: seq<(string, Value)>, e: nat)
    requires DocEntries(parent, es) && At(ls, i, RenderEntries(parent, es, e))
    ensures LaidEntries(ls, i, parent, es, e)
    decreases parent, 1, |es|
  {
    if es != [] {
      var a, b := RenderEntry(parent, es[0], e), RenderEntries(parent, es[1..], e);
      var j := i + EntryHeight(parent, es[0]);
      assert At(ls, i, a) && At(ls, j, b) by {
        AtSplit(ls, i, a, b);
        EntryHeightRendered(parent, es[0], e);
      }
      EntryLaid(ls, i, parent, es[0], e);
      EntriesLaid(ls, j, parent, es[1..], e);
      EntriesLaidCons(ls, i, parent, es, e, j);
    }
  }

  lemma EntriesLaidCons(ls: seq<Line>, i: nat, parent: Value, es: seq<(string, Value)>, e: nat, j: nat)
    requires es != [] && es[0].1 < parent && LaidEntry(ls, i, parent, es[0], e)
    requires j == i + EntryHeight(parent, es[0]) && LaidEntries(ls, j, parent, es[1..], e)
    ensures LaidEntries(ls, i, parent, es, e)
  {
  }

  lemma {:induction false} EntryLaid(ls: seq<Line>, i: nat, parent: Value, kv: (string, Value), e: nat)
    requires kv.1 < parent && GoodEntry(kv) && At(ls, i, RenderEntry(parent, kv, e))
    ensures LaidEntry(ls, i, parent, kv, e)
    decreases parent, 0
  {
    var head := (e, kv.0 + ":" + EntryTail(kv.1));
    AtFirst(ls, i, RenderEntry(parent, kv, e));
    EntryLine(ls[i], kv.0, kv.1);
    if Inline(kv.1) {
      ParseRenderScalar(kv.1);
    } else {
      AtSplit(ls, i, [head], RenderBlock(kv.1, e + 2));
      BlockLaid(ls, i + 1, kv.1, e + 2);
    }
  }

  lemma {:induction false} ItemsLaid(ls: seq<Line>, i: nat, parent: Value, xs: seq<Value>, e: nat)
    requires DocItems(parent, xs) && At(ls, i, RenderItems(parent, xs, e))
    ensures LaidItems(ls, i, parent, xs, e)
    decreases parent, 1, |xs|
  {
    if xs != [] {
      var a := RenderItem(parent, xs[0], e);
      AtSplit(ls, i, a, RenderItems(parent, xs[1..], e));
      ItemHeightRendered(parent, xs[0], e);
      ItemLaid(ls, i, parent, xs[0], e);
      ItemsLaid(ls, i + |a|, parent, xs[1..], e);
    }
  }

  lemma {:induction false} ItemLaid(ls: seq<Line>, i: nat, parent: Value, x: Value, e: nat)
    requires x < parent && GoodItem(x) && At(ls, i, RenderItem(parent, x, e))
    ensures LaidItem(ls, i, parent, x, e)
    decreases parent, 0, 1
  {
    if Inline(x) {
      AtFirst(ls, i, RenderItem(parent, x, e));
      assert ItemScalar(x);
      ItemLine(RenderScalar(x));
      ParseRenderScalar(x);
    } else if InlineHead(x) {
      ItemMapLaid(ls, i, parent, x, e);
    } else {
      AtFirst(ls, i, RenderItem(parent, x, e));
      ItemLine([]);
      AtSplit(ls, i, [(e, "-")], RenderBlock(x, e + 2));
      BlockLaid(ls, i + 1, x, e + 2);
    }
  }

  /** A mapping item rendered with its first entry on the "-" line. */
  lemma {:induction false} ItemMapLaid(ls: seq<Line>, i: nat, parent: Value, x: Value, e: nat)
    requires x < parent && GoodItem(x) && !Inline(x) && InlineHead(x)
    requires At(ls, i, RenderItem(parent, x, e))
    ensures LaidItem(ls, i, parent, x, e)
    decreases parent, 0, 0
  {
    var es := x.entries;
    assert Doc(x) && DocEntries(x, es) && GoodEntry(es[0]);
    var head := (e, "- " + es[0].0 + ":" + EntryTail(es[0].1));
    AtSplit(ls, i, [head], RenderEntries(x, es[1..], e + 2));
    AtFirst(ls, i, [head]);
    ItemHeadLine(head.1, es[0]);
    EntriesLaid(ls, i + 1, x, es[1..], e + 2);
  }

  /** The "-" line carrying a first entry that fits on it. */
  lemma ItemHeadLine(c: string, kv: (string, Value))
    requires PlainKey(kv.0) && Inline(kv.1) && c == "- " + kv.0 + ":" + EntryTail(kv.1)
    ensures StartsWith(c, "-") && EntryHead(ItemText(c), kv)
  {
    var t := kv.0 + ":" + EntryTail(kv.1);
    Regroup("- ", kv.0, ":", EntryTail(kv.1));
    assert t[0] == kv.0[0];
    ItemLine(t);
    EntryHeadLine(t, kv);
  }

  lemma Regroup<T>(a: seq<T>, b: seq<T>, c: seq<T>, d: seq<T>)
    ensures a + b + c + d == a + (b + c + d)
  {
  }

  /** A rendered "key: scalar" text passes the entry tests and reads back. */
  lemma EntryHeadLine(t: string, kv: (string, Value))
    requires PlainKey(kv.0) && Inline(kv.1) && t == kv.0 + ":" + EntryTail(kv.1)
    ensures EntryHead(t, kv)
  {
    EntryLine((0, t), kv.0, kv.1);
    ParseRenderScalar(kv.1);
  }

  // ------------------------------------------------- reading the layout

  /** A mapping block's end lies below its entries' indent too. */
  lemma EntriesBelow(ls: seq<Line>, j: nat, parent: Value, es: seq<(string, Value)>, e: nat, k: nat)
    requires Within(parent, es) && LaidEntries(ls, j, parent, es, e)
    requires k == j + EntriesHeight(parent, es) && Below(ls, k, e)
    ensures Below(ls, j, e + 1)
  {
  }

  /** A list block's end lies below its items' indent too. */
  lemma ItemsBelow(ls: seq<Line>, j: nat, parent: Value, xs: seq<Value>, e: nat, k: nat)
    requires LaidItems(ls, j, parent, xs, e) && k == j + ItemsHeight(xs) && Below(ls, k, e)
    ensures Below(ls, j, e + 1)
  {
  }

  /**
   * `parse_block(e)` over a block laid out from line `i` up to line `k`
   * returns the value and stops at `k`.
   */
  lemma {:induction false} BlockParsed(ls: seq<Line>, i: nat, v: Value, e: nat, k: nat)
    requires LaidBlock(ls, i, v, e) && k == i + Height(v) && Below(ls, k, e)
    ensures Block(ls, i, e) == (Ok(v), k)
    decreases v, 2
  {
    if v.Dict? {
      var es := v.entries;
      EntriesWithin(v);
      if es != [] {
        assert LaidEntry(ls, i, v, es[0], e);
        assert Block(ls, i, e) == Entries(ls, i, e, [], true);
        assert [] + es == es;
        UniqueFresh([], es);
        EntriesParsed(ls, i, v, es, e, [], true, es, k);
      }
    } else {
      var xs := v.items;
      assert LaidItem(ls, i, v, xs[0], e);
      assert Block(ls, i, e) == Items(ls, i, e, []);
      assert [] + xs == xs;
      ItemsParsed(ls, i, v, xs, e, [], xs, k);
    }
  }

  /** The mapping loop over laid-out entries appends them all to `d`, in order. */
  lemma {:induction false} EntriesParsed(
    ls: seq<Line>, i: nat, parent: Value, es: seq<(string, Value)>, e: nat,
    d: seq<(string, Value)>, quoteLine: bool, all: seq<(string, Value)>, k: nat)
    requires Within(parent, es) && LaidEntries(ls, i, parent, es, e) && FreshKeys(d, es) && d + es == all
    requires k == i + EntriesHeight(parent, es) && Below(ls, k, e)
    ensures Entries(ls, i, e, d, quoteLine) == (Ok(Dict(all)), k)
    decreases parent, 1, |es|
  {
    if es == [] {
      assert d + es == d;
      EntriesStop(ls, i, e, d, quoteLine);
    } else {
      var kv := es[0];
      var j := i + EntryHeight(parent, kv);
      MoveHead(d, es);
      EntriesBelow(ls, j, parent, es[1..], e, k);
      EntryStepParsed(ls, i, parent, kv, e, d, quoteLine, j);
      EntriesParsed(ls, j, parent, es[1..], e, d + [kv], quoteLine, all, k);
    }
  }

  /** One round of the mapping loop over a laid-out entry whose key is new to `d`. */
  lemma EntryStepParsed(
    ls: seq<Line>, i: nat, parent: Value, kv: (string, Value), e: nat,
    d: seq<(string, Value)>, quoteLine: bool, j: nat)
    requires LaidEntry(ls, i, parent, kv, e) && j == i + EntryHeight(parent, kv) && Below(ls, j, e + 1)
    requires !HasKey(d, kv.0)
    ensures j <= |ls| && Entries(ls, i, e, d, quoteLine) == Entries(ls, j, e, d + [kv], quoteLine)
    decreases parent, 0, 1
  {
    EntryParsed(ls, i, parent, kv, e, j);
    EntriesStep(ls, i, parent, kv, e, d, quoteLine, j, d + [kv]);
  }

  /** A key's value: the scalar after ':', or the block below the key. */
  lemma {:induction false} EntryParsed(ls: seq<Line>, i: nat, parent: Value, kv: (string, Value), e: nat, j: nat)
    requires LaidEntry(ls, i, parent, kv, e) && j == i + EntryHeight(parent, kv) && Below(ls, j, e + 1)
    ensures EntryValue(ls, i, e, KeyAndRest(ls[i].1).1) == (Ok(kv.1), j)
    decreases parent, 0, 0
  {
    if !Inline(kv.1) {
      BlockParsed(ls, i + 1, kv.1, e + 2, j);
    }
  }

  /** The list loop over laid-out items appends them all to `acc`, in order. */
  lemma {:induction false} ItemsParsed(
    ls: seq<Line>, i: nat, parent: Value, xs: seq<Value>, e: nat,
    acc: seq<Value>, all: seq<Value>, k: nat)
    requires LaidItems(ls, i, parent, xs, e) && acc + xs == all
    requires k == i + ItemsHeight(xs) && Below(ls, k, e)
    ensures Items(ls, i, e, acc) == (Ok(List(all)), k)
    decreases parent, 1, |xs|
  {
    if xs == [] {
      assert acc + xs == acc;
      ItemsStop(ls, i, e, acc);
    } else {
      var j := i + ItemHeight(xs[0]);
      MoveHead(acc, xs);
      ItemsBelow(ls, j, parent, xs[1..], e, k);
      ItemStepParsed(ls, i, parent, xs[0], e, acc, j);
      ItemsParsed(ls, j, parent, xs[1..], e, acc + [xs[0]], all, k);
    }
  }

  /** One round of the list loop over a laid-out item. */
  lemma ItemStepParsed(ls: seq<Line>, i: nat, parent: Value, x: Value, e: nat, acc: seq<Value>, j: nat)
    requires LaidItem(ls, i, parent, x, e) && j == i + ItemHeight(x) && Below(ls, j, e + 1)
    ensures j <= |ls| && Items(ls, i, e, acc) == Items(ls, j, e, acc + [x])
    decreases parent, 0, 2
  {
    ItemParsed(ls, i, parent, x, e, j);
    ItemsStep(ls, i, e, acc, x, j);
  }

  /** One item: a scalar, a mapping opened on the "-" line, or the block below "-". */
  lemma {:induction false} ItemParsed(ls: seq<Line>, i: nat, parent: Value, x: Value, e: nat, j: nat)
    requires LaidItem(ls, i, parent, x, e) && j == i + ItemHeight(x) && Below(ls, j, e + 1)
    ensures Item(ls, i, e) == (Ok(x), j)
    decreases parent, 0, 1
  {
    if Inline(x) {
    } else if InlineHead(x) {
      ItemMapParsed(ls, i, parent, x, e, j);
    } else {
      BlockParsed(ls, i + 1, x, e + 2, j);
    }
  }

  /** An item holding a mapping whose first key sits on the "-" line. */
  lemma {:induction false} ItemMapParsed(ls: seq<Line>, i: nat, parent: Value, x: Value, e: nat, j: nat)
    requires LaidItem(ls, i, parent, x, e) && !Inline(x) && InlineHead(x)
    requires j == i + ItemHeight(x) && Below(ls, j, e + 1)
    ensures Item(ls, i, e) == (Ok(x), j)
    decreases parent, 0, 0
  {
    var es := x.entries;
    EntriesWithin(x);
    ItemMapHead(ls, i, parent, x, e);
    MoveHead([], es);
    assert [] + es == es && [] + [es[0]] == [es[0]];
    UniqueFresh([es[0]], es[1..]);
    EntriesParsed(ls, i + 1, x, es[1..], e + 2, [es[0]], false, es, j);
  }

  /** The "-" line of such an item holds its first entry; the loop over the others follows. */
  lemma ItemMapHead(ls: seq<Line>, i: nat, parent: Value, x: Value, e: nat)
    requires LaidItem(ls, i, parent, x, e) && !Inline(x) && InlineHead(x)
    ensures Item(ls, i, e) == Entries(ls, i + 1, e + 2, [x.entries[0]], false)
  {
    var kv := x.entries[0];
    assert EntryValue(ls, i, e, KeyAndRest(ItemText(ls[i].1)).1) == (Ok(kv.1), i + 1);
    assert Put([], kv.0, kv.1) == [kv];
  }

  // -------------------------------------------------------- reading back

  /**
   * `parse_block(e)` reads a rendered block back wherever it sits among
   * other lines, provided the line after it is shallower than `e`.
   */
  lemma BlockRendered(ls: seq<Line>, i: nat, v: Value, e: nat)
    requires Doc(v) && At(ls, i, RenderBlock(v, e)) && Below(ls, i + |RenderBlock(v, e)|, e)
    ensures Block(ls, i, e) == (Ok(v), i + |RenderBlock(v, e)|)
  {
    BlockHeight(v, e);
    BlockLaid(ls, i, v, e);
    BlockParsed(ls, i, v, e, i + |RenderBlock(v, e)|);
  }

  /** The rendered lines of a document, on their own, read back as the document. */
  lemma ParseRendered(v: Value)
    requires Doc(v)
    ensures Block(RenderBlock(v, 0), 0, 0) == (Ok(v), |RenderBlock(v, 0)|)
  {
    var ls := RenderBlock(v, 0);
    assert At(ls, 0, ls) by { assert ls[0..|ls|] == ls; }
    BlockRendered(ls, 0, v, 0);
  }
}
