/** How both checkers walk the lines: a line that opens a function starts a
    definition whose body runs up to the first line that is exactly `}`; that
    line closes it and is skipped; every other line is a top-level line. */
module Segments {

  /** One top-level unit of the line sequence. `closed` is false only when the
      input ended before a `}` line was found. */
  datatype Item =
    | Definition(header: string, body: seq<string>, closed: bool)
    | TopLine(line: string)

  /** The first line at or after `i` that is exactly `}`, or `|lines|`. */
  function CloseAt(lines: seq<string>, i: nat): (j: nat)
    requires i <= |lines|
    ensures i <= j <= |lines|
    decreases |lines| - i
  {
    if i == |lines| || lines[i] == "}" then i else CloseAt(lines, i + 1)
  }

  lemma {:induction false} CloseAtSpec(lines: seq<string>, i: nat)
    requires i <= |lines|
    ensures forall k :: i <= k < CloseAt(lines, i) ==> lines[k] != "}"
    ensures CloseAt(lines, i) == |lines| || lines[CloseAt(lines, i)] == "}"
    decreases |lines| - i
  {
    if i < |lines| && lines[i] != "}" {
      CloseAtSpec(lines, i + 1);
    }
  }

  lemma {:induction false} CloseAtIs(lines: seq<string>, i: nat, j: nat)
    requires i <= j <= |lines|
    requires forall k :: i <= k < j ==> lines[k] != "}"
    requires j == |lines| || lines[j] == "}"
    ensures CloseAt(lines, i) == j
    decreases j - i
  {
    if i < j {
      CloseAtIs(lines, i + 1, j);
    }
  }

  /** A line before the closing one that is not `}` is not the closing one. */
  lemma {:induction false} CloseAtPast(lines: seq<string>, i: nat, j: nat)
    requires i <= j < |lines| && j <= CloseAt(lines, i) && lines[j] != "}"
    ensures j < CloseAt(lines, i)
  {
    CloseAtSpec(lines, i);
  }

  /** The lines from `i` on, empty once `i` runs past the end. */
  function Rest(lines: seq<string>, i: nat): seq<string>
  {
    if i <= |lines| then lines[i..] else []
  }

  /** The items of a line sequence, given the test for a function-opening line. */
  function Segment(lines: seq<string>, isHeader: string -> bool): seq<Item>
    decreases |lines|
  {
    if lines == [] then []
    else if isHeader(lines[0]) then
      var j := CloseAt(lines, 1);
      [Definition(lines[0], lines[1..j], j < |lines|)] + Segment(Rest(lines, j + 1), isHeader)
    else [TopLine(lines[0])] + Segment(lines[1..], isHeader)
  }

  /** The lines an item was made of. */
  function Lines(it: Item): seq<string>
  {
    match it
    case Definition(h, body, closed) => [h] + body + (if closed then ["}"] else [])
    case TopLine(l) => [l]
  }

  function Flatten(items: seq<Item>): seq<string>
  {
    if items == [] then [] else Lines(items[0]) + Flatten(items[1..])
  }

  /** What a segmentation looks like: definitions open with a header and hold no
      `}` line, only the last one may be unclosed, and no top-level line opens a
      function. */
  predicate WellFormed(items: seq<Item>, isHeader: string -> bool)
  {
    forall k :: 0 <= k < |items| ==>
      match items[k]
      case Definition(h, body, closed) =>
        isHeader(h) && "}" !in body && (closed || k == |items| - 1)
      case TopLine(l) => !isHeader(l)
  }

  /** Each line is consumed exactly once and in order: the items glue back into
      the input. */
  lemma {:induction false} FlattenSegment(lines: seq<string>, isHeader: string -> bool)
    ensures Flatten(Segment(lines, isHeader)) == lines
    decreases |lines|
  {
    if lines != [] {
      if isHeader(lines[0]) {
        var j := CloseAt(lines, 1);
        var rest := Rest(lines, j + 1);
        var it := Definition(lines[0], lines[1..j], j < |lines|);
        FlattenSegment(rest, isHeader);
        FlattenCons(it, Segment(rest, isHeader));
        CloseAtSpec(lines, 1);
        DefinitionLines(lines, j);
      } else {
        FlattenSegment(lines[1..], isHeader);
        FlattenCons(TopLine(lines[0]), Segment(lines[1..], isHeader));
        TopLineLines(lines);
      }
    }
  }

  lemma {:induction false} FlattenCons(it: Item, items: seq<Item>)
    ensures Flatten([it] + items) == Lines(it) + Flatten(items)
  {
    var s := [it] + items;
    assert s[0] == it && s[1..] == items;
  }

  lemma {:induction false} TopLineLines(lines: seq<string>)
    requires lines != []
    ensures Lines(TopLine(lines[0])) + lines[1..] == lines
  {
    assert [lines[0]] + lines[1..] == lines;
  }

  /** A header, its body and the closing line if any, then the rest, are the
      lines again. */
  lemma {:induction false} DefinitionLines(lines: seq<string>, j: nat)
    requires 1 <= j <= |lines|
    requires j < |lines| ==> lines[j] == "}"
    ensures Lines(Definition(lines[0], lines[1..j], j < |lines|)) + Rest(lines, j + 1) == lines
  {
    if j < |lines| {
      assert [lines[0]] + lines[1..j] + ["}"] == lines[..j + 1];
    } else {
      assert [lines[0]] + lines[1..j] == lines;
    }
  }

  /** Every segmentation is well formed: in particular a body ends at the first
      `}` line and never contains one. */
  lemma {:induction false} SegmentWellFormed(lines: seq<string>, isHeader: string -> bool)
    ensures WellFormed(Segment(lines, isHeader), isHeader)
    decreases |lines|
  {
    if lines != [] {
      var items := Segment(lines, isHeader);
      if isHeader(lines[0]) {
        var j := CloseAt(lines, 1);
        CloseAtSpec(lines, 1);
        var rest := Segment(Rest(lines, j + 1), isHeader);
        SegmentWellFormed(Rest(lines, j + 1), isHeader);
        assert "}" !in lines[1..j] by {
          forall k | 0 <= k < j - 1 ensures lines[1..j][k] != "}" {
            assert lines[1..j][k] == lines[k + 1];
          }
        }
        assert j == |lines| ==> rest == [];
        assert forall k :: 1 <= k < |items| ==> items[k] == rest[k - 1];
      } else {
        SegmentWellFormed(lines[1..], isHeader);
        assert forall k :: 1 <= k < |items| ==> items[k] == Segment(lines[1..], isHeader)[k - 1];
      }
    }
  }

  /** Segmenting a definition's own lines in front of more lines. */
  lemma {:induction false} SegmentDefinition(h: string, body: seq<string>, closed: bool, rest: seq<string>,
                                             isHeader: string -> bool)
    requires isHeader(h) && "}" !in body && (closed || rest == [])
    ensures Segment(Lines(Definition(h, body, closed)) + rest, isHeader)
              == [Definition(h, body, closed)] + Segment(rest, isHeader)
  {
    var lines := Lines(Definition(h, body, closed)) + rest;
    var n := |body|;
    assert lines[0] == h;
    forall k | 1 <= k < n + 1 ensures lines[k] != "}" {
      assert lines[k] == body[k - 1];
    }
    if closed {
      assert lines[n + 1] == "}";
      CloseAtIs(lines, 1, n + 1);
      assert Rest(lines, n + 2) == rest;
    } else {
      assert lines == [h] + body;
      CloseAtIs(lines, 1, n + 1);
    }
    assert lines[1..n + 1] == body;
  }

  /** A well-formed item sequence is the segmentation of its own lines, so the
      segmentation is the only well-formed reading of the input. */
  lemma {:induction false} SegmentFlatten(items: seq<Item>, isHeader: string -> bool)
    requires WellFormed(items, isHeader)
    ensures Segment(Flatten(items), isHeader) == items
  {
    if items != [] {
      var tail := items[1..];
      assert WellFormed(tail, isHeader) by {
        forall k | 0 <= k < |tail| ensures match tail[k]
          case Definition(h, body, closed) => isHeader(h) && "}" !in body && (closed || k == |tail| - 1)
          case TopLine(l) => !isHeader(l)
        {
          assert tail[k] == items[k + 1];
        }
      }
      SegmentFlatten(tail, isHeader);
      assert items == [items[0]] + tail;
      match items[0]
      case TopLine(l) =>
        assert ([l] + Flatten(tail))[1..] == Flatten(tail);
      case Definition(h, body, closed) =>
        assert !closed ==> tail == [];
        SegmentDefinition(h, body, closed, Flatten(tail), isHeader);
    }
  }

  /** The segmentation of the lines from `i` on, when line `i` opens a function. */
  lemma {:induction false} SegmentDefinitionAt(lines: seq<string>, i: nat, isHeader: string -> bool)
    requires i < |lines| && isHeader(lines[i])
    ensures var j := CloseAt(lines, i + 1);
      Segment(lines[i..], isHeader)
        == [Definition(lines[i], lines[i + 1..j], j < |lines|)] + Segment(Rest(lines, j + 1), isHeader)
  {
    var s := lines[i..];
    var j := CloseAt(lines, i + 1);
    CloseAtShift(lines, i);
    SegmentHead(s, isHeader);
    assert s[0] == lines[i];
    assert s[1..j - i] == lines[i + 1..j];
    assert Rest(s, j - i + 1) == Rest(lines, j + 1);
  }

  lemma {:induction false} SegmentHead(s: seq<string>, isHeader: string -> bool)
    requires s != [] && isHeader(s[0])
    ensures var j := CloseAt(s, 1);
      Segment(s, isHeader) == [Definition(s[0], s[1..j], j < |s|)] + Segment(Rest(s, j + 1), isHeader)
  {
  }

  /** Searching for the closing line in a suffix finds the same line. */
  lemma {:induction false} CloseAtShift(lines: seq<string>, i: nat)
    requires i < |lines|
    ensures CloseAt(lines[i..], 1) == CloseAt(lines, i + 1) - i
  {
    var s := lines[i..];
    var j := CloseAt(lines, i + 1);
    CloseAtSpec(lines, i + 1);
    forall k | 1 <= k < j - i ensures s[k] != "}" {
      assert s[k] == lines[i + k];
    }
    assert j < |lines| ==> s[j - i] == lines[j];
    CloseAtIs(s, 1, j - i);
  }

  /** The segmentation of the lines from `i` on, when line `i` is a top-level line. */
  lemma {:induction false} SegmentTopAt(lines: seq<string>, i: nat, isHeader: string -> bool)
    requires i < |lines| && !isHeader(lines[i])
    ensures Segment(lines[i..], isHeader) == [TopLine(lines[i])] + Segment(lines[i + 1..], isHeader)
  {
    assert lines[i..][0] == lines[i];
    assert lines[i..][1..] == lines[i + 1..];
  }

  /** `step` applied to the lines in order, starting from `f`. */
  function Fold<S>(lines: seq<string>, step: (string, S) -> S, f: S): S
  {
    if lines == [] then f else step(lines[|lines| - 1], Fold(lines[..|lines| - 1], step, f))
  }

  /** `step` applied to the lines `lo` to `j` of `lines`, counted by position
      as the inner loop counts. */
  function FoldFrom<S>(lines: seq<string>, lo: nat, j: nat, step: (string, S) -> S, f: S): S
    requires lo <= j <= |lines|
    decreases j
  {
    if j == lo then f else step(lines[j - 1], FoldFrom(lines, lo, j - 1, step, f))
  }

  /** Counting by position folds the same lines as folding the slice. */
  lemma {:induction false} FoldFromSlice<S>(lines: seq<string>, lo: nat, j: nat, step: (string, S) -> S, f: S)
    requires lo <= j <= |lines|
    ensures FoldFrom(lines, lo, j, step, f) == Fold(lines[lo..j], step, f)
    decreases j
  {
    if j > lo {
      FoldFromSlice(lines, lo, j - 1, step, f);
      var b := lines[lo..j];
      assert b[|b| - 1] == lines[j - 1] && b[..|b| - 1] == lines[lo..j - 1];
    }
  }
}
