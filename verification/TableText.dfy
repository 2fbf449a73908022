/** The wrapping of long table cells (`getReadableMultiLineString` in utils.ts). */
module TableText {
  import Sequences
  import Text

  /** Consecutive pieces of exactly `width` characters, and the rest. */
  function Wrapped(value: string, width: nat): seq<string>
    requires width > 0
    decreases |value|
  {
    if |value| <= width then [value] else [value[..width]] + Wrapped(value[width..], width)
  }

  function JoinLines(lines: seq<string>): string {
    if lines == [] then ""
    else if |lines| == 1 then lines[0]
    else lines[0] + "\n" + JoinLines(lines[1..])
  }

  /** `substring` clamps its end. */
  function Substring(s: string, from: nat, to: nat): string {
    var start, end := if from > |s| then |s| else from, if to > |s| then |s| else to;
    if start <= end then s[start..end] else s[end..start]
  }

  /** Terminates because each line shortens what remains. */
  method GetReadableMultiLineString(value: string, columnWidth: nat) returns (r: string)
    requires columnWidth > 2 || |value| <= columnWidth - 2
    ensures r == if columnWidth > 2 then JoinLines(Wrapped(value, columnWidth - 2)) else value
  {
    r := "";
    var remainingValueLength: nat := |value|;
    var currentValueIndex := 0;
    var realColumnWidth: nat := columnWidth - 2;
    while remainingValueLength > realColumnWidth
      invariant remainingValueLength == |value| - currentValueIndex
      invariant realColumnWidth == 0 ==> value == "" && r == ""
      invariant realColumnWidth > 0 ==>
          r + JoinLines(Wrapped(value[currentValueIndex..], realColumnWidth)) == JoinLines(Wrapped(value, realColumnWidth))
      decreases remainingValueLength
    {
      WrapStep(r, value, currentValueIndex, realColumnWidth);
      r := r + (Substring(value, currentValueIndex, currentValueIndex + realColumnWidth) + "\n");
      currentValueIndex := currentValueIndex + realColumnWidth;
      remainingValueLength := remainingValueLength - realColumnWidth;
    }
    if realColumnWidth > 0 {
      WrapLast(value, currentValueIndex, realColumnWidth);
    }
    r := r + Substring(value, currentValueIndex, currentValueIndex + realColumnWidth);
  }

  lemma WrapStep(r: string, value: string, index: nat, width: nat)
    requires width > 0 && index + width < |value|
    ensures r + JoinLines(Wrapped(value[index..], width)) ==
      r + (Substring(value, index, index + width) + "\n") + JoinLines(Wrapped(value[index + width..], width))
  {
    var rest := value[index..];
    WrapFirst(rest, width);
    assert rest[..width] == Substring(value, index, index + width) && rest[width..] == value[index + width..];
    Sequences.AppendAssoc(r, rest[..width] + "\n", JoinLines(Wrapped(rest[width..], width)));
  }

  lemma WrapLast(value: string, index: nat, width: nat)
    requires width > 0 && index <= |value| <= index + width
    ensures JoinLines(Wrapped(value[index..], width)) == Substring(value, index, index + width)
  {
    assert Wrapped(value[index..], width) == [value[index..]];
  }

  lemma WrapFirst(value: string, width: nat)
    requires width > 0 && |value| > width
    ensures JoinLines(Wrapped(value, width)) == value[..width] + "\n" + JoinLines(Wrapped(value[width..], width))
  {
  }

  /** The lines concatenate back to the value. */
  lemma {:induction false} WrappedKeepsText(value: string, width: nat)
    requires width > 0
    ensures Text.Concat(Wrapped(value, width)) == value
    decreases |value|
  {
    if |value| <= width {
      assert Text.Concat([value]) == value + "";
    } else {
      WrappedKeepsText(value[width..], width);
      var lines := Wrapped(value, width);
      assert lines[0] == value[..width] && lines[1..] == Wrapped(value[width..], width);
      assert value == value[..width] + value[width..];
    }
  }

  /** All lines but the last have exactly the width, the last one at most; there is one
      line for the empty value and otherwise just as many as the value needs. */
  lemma {:induction false} WrappedLines(value: string, width: nat)
    requires width > 0
    ensures var lines := Wrapped(value, width);
      && lines != []
      && (forall i :: 0 <= i < |lines| - 1 ==> |lines[i]| == width)
      && |value| == (|lines| - 1) * width + |lines[|lines| - 1]|
      && |lines[|lines| - 1]| <= width && (value != "" ==> lines[|lines| - 1] != "")
    decreases |value|
  {
    if |value| > width {
      WrappedLines(value[width..], width);
      var lines, rest := Wrapped(value, width), Wrapped(value[width..], width);
      assert lines == [value[..width]] + rest && lines[|lines| - 1] == rest[|rest| - 1];
      OneMoreLine(|rest| - 1, width);
    }
  }

  lemma OneMoreLine(n: nat, width: nat)
    ensures (n + 1) * width == n * width + width
  {
  }

  /** The loop's remaining length reaches the width, so that it stops, if and only if the
      column is wider than two or the value already fits. */
  lemma WrapStopsIff(length: nat, columnWidth: int)
    ensures (exists n: nat :: Remaining(length, columnWidth, n) <= columnWidth - 2)
      <==> columnWidth > 2 || length <= columnWidth - 2
  {
    if columnWidth > 2 {
      RemainingFalls(length, columnWidth, length);
      assert Remaining(length, columnWidth, length) <= columnWidth - 2;
    } else {
      forall n: nat ensures Remaining(length, columnWidth, n) >= length {
        RemainingGrows(length, columnWidth, n);
      }
      assert Remaining(length, columnWidth, 0) == length;
    }
  }

  /** A column of two never wraps even one character: the loop does not stop. */
  lemma TwoColumnsNeverStop(n: nat)
    ensures Remaining(1, 2, n) > 0
  {
    RemainingGrows(1, 2, n);
  }

  /** What remains after `n` passes of the loop body. */
  function Remaining(length: nat, columnWidth: int, n: nat): int {
    if n == 0 then length else Remaining(length, columnWidth, n - 1) - (columnWidth - 2)
  }

  lemma {:induction false} RemainingFalls(length: nat, columnWidth: int, n: nat)
    requires columnWidth > 2
    ensures Remaining(length, columnWidth, n) <= length - n
  {
    if n > 0 {
      RemainingFalls(length, columnWidth, n - 1);
    }
  }

  lemma {:induction false} RemainingGrows(length: nat, columnWidth: int, n: nat)
    requires columnWidth <= 2
    ensures Remaining(length, columnWidth, n) >= length
  {
    if n > 0 {
      RemainingGrows(length, columnWidth, n - 1);
    }
  }
}
