/** The older host's `Utilities.trim_empty_lines`: it drops the trailing
    blank lines of a command's output, keeps only what follows the last
    start-marker line, and returns what is left last line first.

    `Trimmed` says what the result is; `TrimEmptyLines` is the source's two
    backward scans with `break`, proved to compute it. */
module Utilities {
  import opened PyStr

  /** `Utilities.start_marker`: twenty-one `=`. */
  const START_MARKER: string := "====================="

  /** `line.strip() == ""`. */
  predicate Blank(line: string)
  {
    Strip(line) == ""
  }

  /** `line.strip() == start_marker`: the stripped line is twenty-one `=`. */
  predicate IsMarker(line: string)
  {
    MarkerText(Strip(line))
  }

  predicate MarkerText(t: string)
  {
    |t| == 21 && forall i :: 0 <= i < |t| ==> t[i] == '='
  }

  /** `MarkerText` is equality with the marker. */
  lemma MarkerTextIsMarker(t: string)
    ensures MarkerText(t) <==> t == START_MARKER
  {
    if MarkerText(t) {
      assert t == START_MARKER;
    }
  }

  /** The index of the last non-blank line among `lines[..k]`, or -1. */
  function LastNonBlank(lines: seq<string>, k: nat): (r: int)
    requires k <= |lines|
    ensures -1 <= r < k
    ensures r >= 0 ==> !Blank(lines[r])
  {
    if k == 0 then -1
    else if !Blank(lines[k - 1]) then k - 1
    else LastNonBlank(lines, k - 1)
  }

  /** The index of the last marker line among `lines[..k]`, or -1. */
  function LastMarker(lines: seq<string>, k: nat): (r: int)
    requires k <= |lines|
    ensures -1 <= r < k
    ensures r >= 0 ==> IsMarker(lines[r])
  {
    if k == 0 then -1
    else if IsMarker(lines[k - 1]) then k - 1
    else LastMarker(lines, k - 1)
  }

  /** What `trim_empty_lines` returns. */
  function Trimmed(lines: seq<string>): seq<string>
  {
    TrimmedFrom(lines, LastNonBlank(lines, |lines|))
  }

  /** The result once the last non-blank line `last` is known. */
  function TrimmedFrom(lines: seq<string>, last: int): seq<string>
    requires -1 <= last < |lines|
  {
    if last == -1 then [] else Selected(lines, last, LastMarker(lines, last + 1))
  }

  /** The lines after the marker at `start` (or from the first line when
      `start` is -1) up to `last`, reversed. */
  function Selected(lines: seq<string>, last: nat, start: int): seq<string>
    requires -1 <= start <= last < |lines|
  {
    if start != -1 then Reverse(lines[start + 1..last + 1]) else Reverse(lines[..last + 1])
  }

  /** `trim_empty_lines`: the two backward scans, then the selected lines reversed. */
  method TrimEmptyLines(lines: seq<string>) returns (r: seq<string>)
    ensures r == Trimmed(lines)
  {
    var lastIndex := FindLastNonBlank(lines);
    if lastIndex == -1 {
      return [];
    }
    var startIndex := FindStartMarker(lines, lastIndex);
    var selected: seq<string>;
    if startIndex != -1 {
      selected := lines[startIndex + 1..lastIndex + 1];
    } else {
      selected := lines[..lastIndex + 1];
    }
    r := Reverse(selected);
  }

  /** The first scan: from the last line back to the first that is not blank. */
  method FindLastNonBlank(lines: seq<string>) returns (lastIndex: int)
    ensures lastIndex == LastNonBlank(lines, |lines|)
  {
    lastIndex := -1;
    var i := |lines| - 1;
    while i >= 0
      invariant -1 <= i < |lines|
      invariant LastNonBlank(lines, |lines|) == LastNonBlank(lines, i + 1)
      invariant lastIndex == -1
      decreases i + 1
    {
      if Strip(lines[i]) != "" {
        lastIndex := i;
        break;
      }
      i := i - 1;
    }
  }

  /** The second scan: from `lastIndex` back to the first marker line. */
  method FindStartMarker(lines: seq<string>, lastIndex: nat) returns (startIndex: int)
    requires lastIndex < |lines|
    ensures startIndex == LastMarker(lines, lastIndex + 1)
  {
    startIndex := -1;
    var i := lastIndex;
    while i >= 0
      invariant -1 <= i <= lastIndex
      invariant LastMarker(lines, lastIndex + 1) == LastMarker(lines, i + 1)
      invariant startIndex == -1
      decreases i + 1
    {
      MarkerTextIsMarker(Strip(lines[i]));
      if Strip(lines[i]) == START_MARKER {
        startIndex := i;
        break;
      }
      i := i - 1;
    }
  }

  /** `LastNonBlank` is -1 exactly when every line before `k` is blank;
      otherwise every line after it is blank. */
  lemma {:induction false} LastNonBlankIsLast(lines: seq<string>, k: nat)
    requires k <= |lines|
    ensures LastNonBlank(lines, k) == -1 <==> forall i :: 0 <= i < k ==> Blank(lines[i])
    ensures forall i :: LastNonBlank(lines, k) < i < k ==> Blank(lines[i])
  {
    if k > 0 {
      LastNonBlankIsLast(lines, k - 1);
    }
  }

  /** `LastMarker` is -1 exactly when no line before `k` is a marker;
      otherwise no line after it is. */
  lemma {:induction false} LastMarkerIsLast(lines: seq<string>, k: nat)
    requires k <= |lines|
    ensures LastMarker(lines, k) == -1 <==> forall i :: 0 <= i < k ==> !IsMarker(lines[i])
    ensures forall i :: LastMarker(lines, k) < i < k ==> !IsMarker(lines[i])
  {
    if k > 0 {
      LastMarkerIsLast(lines, k - 1);
    }
  }

  /** Only blank lines give the empty result, and then it always is. */
  lemma AllBlankGivesEmpty(lines: seq<string>)
    requires forall i :: 0 <= i < |lines| ==> Blank(lines[i])
    ensures Trimmed(lines) == []
  {
    LastNonBlankIsLast(lines, |lines|);
  }

  /** A non-blank line followed, up to `k`, only by blank lines is the one
      `LastNonBlank` finds. */
  lemma {:induction false} LastNonBlankAt(lines: seq<string>, k: nat, last: nat)
    requires last < k <= |lines| && !Blank(lines[last])
    requires forall i :: last < i < k ==> Blank(lines[i])
    ensures LastNonBlank(lines, k) == last
    decreases k
  {
    if k - 1 != last {
      LastNonBlankAt(lines, k - 1, last);
    }
  }

  /** A marker line followed, up to `k`, only by non-marker lines is the
      one `LastMarker` finds. */
  lemma {:induction false} LastMarkerAt(lines: seq<string>, k: nat, m: nat)
    requires m < k <= |lines| && IsMarker(lines[m])
    requires forall i :: m < i < k ==> !IsMarker(lines[i])
    ensures LastMarker(lines, k) == m
    decreases k
  {
    if k - 1 != m {
      LastMarkerAt(lines, k - 1, m);
    }
  }

  /** With no marker at or before the last non-blank line `last`, the
      result is `lines[..last + 1]` reversed. */
  lemma NoMarkerGivesAllReversed(lines: seq<string>, last: nat)
    requires last < |lines| && !Blank(lines[last])
    requires forall i :: last < i < |lines| ==> Blank(lines[i])
    requires forall i :: 0 <= i <= last ==> !IsMarker(lines[i])
    ensures Trimmed(lines) == Reverse(lines[..last + 1])
  {
    LastNonBlankAt(lines, |lines|, last);
    LastMarkerIsLast(lines, last + 1);
    assert TrimmedFrom(lines, last) == Selected(lines, last, -1);
  }

  /** With a marker at `m`, the last one at or before the last non-blank
      line `last`, the result is the lines strictly between them and `last`,
      reversed. */
  lemma MarkerGivesLinesAfterIt(lines: seq<string>, last: nat, m: nat)
    requires last < |lines| && !Blank(lines[last])
    requires forall i :: last < i < |lines| ==> Blank(lines[i])
    requires m <= last && IsMarker(lines[m])
    requires forall i :: m < i <= last ==> !IsMarker(lines[i])
    ensures Trimmed(lines) == Reverse(lines[m + 1..last + 1])
  {
    LastNonBlankAt(lines, |lines|, last);
    LastMarkerAt(lines, last + 1, m);
    assert TrimmedFrom(lines, last) == Selected(lines, last, m);
  }

  /** The result is empty exactly when every line is blank or the last
      non-blank line is itself the marker. */
  lemma EmptyExactly(lines: seq<string>)
    ensures var last := LastNonBlank(lines, |lines|);
      Trimmed(lines) == [] <==> last == -1 || IsMarker(lines[last])
  {
    var last := LastNonBlank(lines, |lines|);
    if last != -1 {
      var start := LastMarker(lines, last + 1);
      assert IsMarker(lines[last]) <==> start == last;
      SelectedShape(lines, last, start);
    }
  }

  /** A non-empty result starts with the last non-blank line. */
  lemma FirstIsLastNonBlank(lines: seq<string>)
    requires Trimmed(lines) != []
    ensures var last := LastNonBlank(lines, |lines|);
      last != -1 && Trimmed(lines)[0] == lines[last] && !Blank(Trimmed(lines)[0])
  {
    var last := LastNonBlank(lines, |lines|);
    assert last != -1;
    var start := LastMarker(lines, last + 1);
    assert Trimmed(lines) == Selected(lines, last, start);
    SelectedShape(lines, last, start);
  }

  /** The selection holds the lines from `last` back to just after
      `start`, one per place. */
  lemma SelectedShape(lines: seq<string>, last: nat, start: int)
    requires -1 <= start <= last < |lines|
    ensures |Selected(lines, last, start)| == last - start
    ensures forall i :: 0 <= i < last - start ==> Selected(lines, last, start)[i] == lines[last - i]
  {
    if start != -1 {
      ReversedSlice(lines[start + 1..last + 1], lines, start + 1);
    } else {
      ReversedSlice(lines[..last + 1], lines, 0);
    }
  }

  /** A slice `sel` of `lines` from `lo`, reversed. */
  lemma ReversedSlice(sel: seq<string>, lines: seq<string>, lo: nat)
    requires lo + |sel| <= |lines|
    requires forall i :: 0 <= i < |sel| ==> sel[i] == lines[lo + i]
    ensures |Reverse(sel)| == |sel|
    ensures forall i :: 0 <= i < |sel| ==> Reverse(sel)[i] == lines[lo + |sel| - 1 - i]
  {
  }

  /** The result is never longer than the input, and every line of it is
      an input line. */
  lemma TrimmedIsShorter(lines: seq<string>)
    ensures |Trimmed(lines)| <= |lines|
    ensures forall i :: 0 <= i < |Trimmed(lines)| ==> Trimmed(lines)[i] in lines
  {
    var last := LastNonBlank(lines, |lines|);
    if last != -1 {
      var start := LastMarker(lines, last + 1);
      assert Trimmed(lines) == Selected(lines, last, start);
      SelectedShape(lines, last, start);
      forall i | 0 <= i < |Trimmed(lines)|
        ensures Trimmed(lines)[i] in lines
      {
        assert Trimmed(lines)[i] == lines[last - i];
      }
    }
  }
}
