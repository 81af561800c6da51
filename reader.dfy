/**
 * The block reader of `_load_simple_yaml` as the source runs it: nested
 * `parse_block` calls sharing one cursor over the prepared lines.
 */
module YamlReader {
  import opened Wrappers
  import opened Strs
  import opened Values
  import opened Yaml
  import opened YamlErrors

  /** The prepared lines and the cursor shared by the nested `parse_block` calls. */
  class Reader {
    const lines: seq<Line>
    var idx: nat

    constructor (lines: seq<Line>)
      ensures this.lines == lines && idx == 0
    {
      this.lines := lines;
      idx := 0;
    }

    /** `parse_block(e)`. */
    method ParseBlock(e: nat) returns (r: Result<Value, YamlError>)
      requires idx <= |lines|
      modifies this
      ensures (r, idx) == Block(lines, old(idx), e)
      ensures FailsAt(lines, (r, idx), e)
      decreases |lines| - idx, 4
    {
      BlockFails(lines, idx, e);
      if idx == |lines| || lines[idx].0 < e {
        return Ok(Dict([]));
      }
      if lines[idx].0 > e {
        return Err(BadIndentation);
      }
      if StartsWith(lines[idx].1, "-") {
        r := ParseItems(e);
      } else {
        r := ParseEntries(e, [], true);
      }
    }

    /** The list loop of `parse_block(e)`. */
    method ParseItems(e: nat) returns (r: Result<Value, YamlError>)
      requires idx <= |lines|
      modifies this
      ensures (r, idx) == Items(lines, old(idx), e, [])
      ensures FailsAt(lines, (r, idx), e)
      decreases |lines| - idx, 3
    {
      ItemsFails(lines, idx, e, []);
      var items: seq<Value> := [];
      while IsItemLine(lines, idx, e)
        invariant old(idx) <= idx <= |lines|
        invariant Items(lines, idx, e, items) == Items(lines, old(idx), e, [])
        decreases |lines| - idx
      {
        var item := ParseItem(e);
        if item.Err? {
          return item;
        }
        items := items + [item.value];
      }
      return Ok(List(items));
    }

    /** One iteration of the list loop. */
    method ParseItem(e: nat) returns (r: Result<Value, YamlError>)
      requires IsItemLine(lines, idx, e)
      modifies this
      ensures (r, idx) == Item(lines, old(idx), e)
      ensures FailsAt(lines, (r, idx), e)
      decreases |lines| - idx, 2
    {
      ItemFails(lines, idx, e);
      var item := LStripChar(lines[idx].1[1..], ' ');
      if item == [] {
        idx := idx + 1;
        r := ParseBlock(e + 2);
      } else if ':' in item {
        var key := KeyAndRest(item).0;
        var first := ParseValue(e, KeyAndRest(item).1);
        if first.Ok? {
          r := ParseEntries(e + 2, Put([], key, first.value), false);
        } else {
          r := first;
        }
      } else {
        idx := idx + 1;
        r := Ok(ParseScalar(item));
      }
    }

    /**
     * The mapping loop, shared by the top-level mapping of `parse_block` and
     * the extra `key: value` lines under an inline "- key: value" item.
     */
    method ParseEntries(e: nat, d0: seq<(string, Value)>, quoteLine: bool) returns (r: Result<Value, YamlError>)
      requires idx <= |lines|
      modifies this
      ensures (r, idx) == Entries(lines, old(idx), e, d0, quoteLine)
      ensures FailsAt(lines, (r, idx), e)
      decreases |lines| - idx, 1
    {
      EntriesFails(lines, idx, e, d0, quoteLine);
      var d := d0;
      while idx < |lines|
        invariant old(idx) <= idx <= |lines|
        invariant Entries(lines, idx, e, d, quoteLine) == Entries(lines, old(idx), e, d0, quoteLine)
        decreases |lines| - idx
      {
        var indent2 := lines[idx].0;
        var content2 := lines[idx].1;
        if indent2 < e || (indent2 == e && StartsWith(content2, "-")) {
          break;
        }
        if indent2 > e {
          return Err(BadIndentation);
        }
        if ':' !in content2 {
          return Err(NotKeyValue(if quoteLine then Some(content2) else None));
        }
        var key := KeyAndRest(content2).0;
        var v := ParseValue(e, KeyAndRest(content2).1);
        if v.Err? {
          return v;
        }
        d := Put(d, key, v.value);
      }
      return Ok(Dict(d));
    }

    /** Consumes the line holding a key and reads its value. */
    method ParseValue(e: nat, rest: string) returns (r: Result<Value, YamlError>)
      requires idx < |lines|
      modifies this
      ensures (r, idx) == EntryValue(lines, old(idx), e, rest)
      ensures FailsAt(lines, (r, idx), e)
      decreases |lines| - idx, 0
    {
      EntryValueFails(lines, idx, e, rest);
      idx := idx + 1;
      if rest == [] {
        r := ParseBlock(e + 2);
      } else {
        r := Ok(ParseScalar(rest));
      }
    }
  }

  /** `_load_simple_yaml`. */
  method LoadSimpleYaml(text: string) returns (r: Result<Value, YamlError>)
    ensures r == Load(text)
  {
    var prepared := PrepareLines(text);
    if prepared.Err? {
      return Err(prepared.error);
    }
    var reader := new Reader(prepared.value);
    r := reader.ParseBlock(0);
  }
}
