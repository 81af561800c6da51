/**
 * Where the block reader fails. Every error it raises leaves the cursor
 * on the offending line, and that line shows the fault the error names:
 * an indent deeper than the block expects, or a mapping line with no ':'.
 * The reader itself never raises the tab error; only line preparation
 * could, and as written it never does.
 */
module YamlErrors {
  import opened Wrappers
  import opened Strs
  import opened Values
  import opened Yaml

  /**
   * Line `l` shows `err` inside a block at indent `e` or deeper: an
   * over-deep line for `BadIndentation`; for `NotKeyValue`, a mapping line
   * without ':' that is not a list item, quoted in the error or not at all.
   */
  predicate Fault(l: Line, err: YamlError, e: nat) {
    match err
    case TabIndent => false
    case BadIndentation => l.0 > e
    case NotKeyValue(got) =>
      && l.0 >= e && ':' !in l.1 && !StartsWith(l.1, "-")
      && (got == None || got == Some(l.1))
  }

  /** A failed parse stops on a line showing its fault. */
  predicate FailsAt(ls: seq<Line>, p: Parse, e: nat) {
    p.0.Err? ==> p.1 < |ls| && Fault(ls[p.1], p.0.error, e)
  }

  lemma {:induction false} BlockFails(ls: seq<Line>, i: nat, e: nat)
    requires i <= |ls|
    ensures FailsAt(ls, Block(ls, i, e), e)
    decreases |ls| - i, 4
  {
    if i == |ls| || ls[i].0 < e {
    } else if ls[i].0 > e {
    } else if StartsWith(ls[i].1, "-") {
      ItemsFails(ls, i, e, []);
    } else {
      EntriesFails(ls, i, e, [], true);
    }
  }

  lemma {:induction false} ItemsFails(ls: seq<Line>, i: nat, e: nat, acc: seq<Value>)
    requires i <= |ls|
    ensures FailsAt(ls, Items(ls, i, e, acc), e)
    decreases |ls| - i, 3
  {
    if IsItemLine(ls, i, e) {
      ItemFails(ls, i, e);
      var it := Item(ls, i, e);
      if it.0.Ok? {
        ItemsFails(ls, it.1, e, acc + [it.0.value]);
      }
    }
  }

  lemma {:induction false} ItemFails(ls: seq<Line>, i: nat, e: nat)
    requires IsItemLine(ls, i, e)
    ensures FailsAt(ls, Item(ls, i, e), e)
    decreases |ls| - i, 2
  {
    var item := ItemText(ls[i].1);
    if item == [] {
      BlockFails(ls, i + 1, e + 2);
    } else if ':' in item {
      var kr := KeyAndRest(item);
      EntryValueFails(ls, i, e, kr.1);
      var first := EntryValue(ls, i, e, kr.1);
      if first.0.Ok? {
        EntriesFails(ls, first.1, e + 2, Put([], kr.0, first.0.value), false);
      }
    }
  }

  lemma {:induction false} EntriesFails(ls: seq<Line>, i: nat, e: nat, d: seq<(string, Value)>, quoteLine: bool)
    requires i <= |ls|
    ensures FailsAt(ls, Entries(ls, i, e, d, quoteLine), e)
    decreases |ls| - i, 1
  {
    if i == |ls| || ls[i].0 < e {
    } else if ls[i].0 > e {
    } else if StartsWith(ls[i].1, "-") {
    } else if ':' !in ls[i].1 {
    } else {
      var kr := KeyAndRest(ls[i].1);
      EntryValueFails(ls, i, e, kr.1);
      var v := EntryValue(ls, i, e, kr.1);
      if v.0.Ok? {
        EntriesFails(ls, v.1, e, Put(d, kr.0, v.0.value), quoteLine);
      }
    }
  }

  lemma {:induction false} EntryValueFails(ls: seq<Line>, i: nat, e: nat, rest: string)
    requires i < |ls|
    ensures FailsAt(ls, EntryValue(ls, i, e, rest), e)
    decreases |ls| - i, 0
  {
    if rest == [] {
      BlockFails(ls, i + 1, e + 2);
    }
  }

  /**
   * `_load_simple_yaml` fails only in the block parse of the prepared
   * lines, on a line showing the fault; never with the tab error.
   */
  lemma LoadFails(text: string)
    ensures var prep := Prepared(SplitLines(text));
      && prep.Ok?
      && Load(text) == Block(prep.value, 0, 0).0
      && FailsAt(prep.value, Block(prep.value, 0, 0), 0)
    ensures Load(text) != Err(TabIndent)
  {
    var raws := SplitLines(text);
    PreparedNeverFails(raws, 0);
    BlockFails(Prepared(raws).value, 0, 0);
  }
}
