/**
 * utils.py: the calibration division that sets the module's global
 * conversion factor, and the split of the report text into CSV rows.
 */
module Utils {

  import opened Results

  datatype CalibrationError = ZeroDivision

  /** real_distance / pixel_distance; Python raises on a zero divisor. */
  function ConversionFactor(realDistance: real, pixelDistance: real): (r: Result<real, CalibrationError>)
    ensures r.Ok? <==> pixelDistance != 0.0
    ensures r.Err? ==> r.error == ZeroDivision
    ensures r.Ok? ==> r.value * pixelDistance == realDistance
  {
    if pixelDistance == 0.0 then Err(ZeroDivision) else Ok(realDistance / pixelDistance)
  }

  /** The globals of utils.py that calibration writes. */
  class Globals {
    /** `conversion_factor`: unbound until a calibration succeeds. */
    var conversionFactor: Option<real>

    constructor ()
      ensures conversionFactor == None
    {
      conversionFactor := None;
    }

    /**
     * compute_conversion_factor: the value returned is the value stored in
     * the global; a failed division leaves the global as it was.
     */
    method ComputeConversionFactor(realDistance: real, pixelDistance: real) returns (r: Result<real, CalibrationError>)
      modifies this
      ensures r == ConversionFactor(realDistance, pixelDistance)
      ensures r.Ok? ==> conversionFactor == Some(r.value)
      ensures r.Err? ==> conversionFactor == old(conversionFactor)
    {
      if pixelDistance == 0.0 {
        return Err(ZeroDivision);
      }
      conversionFactor := Some(realDistance / pixelDistance);
      r := Ok(conversionFactor.value);
    }
  }

  /** `text.split(sep)`: the pieces between separators, empty ones included. */
  function Split(text: string, sep: char): (r: seq<string>)
    ensures |r| >= 1
  {
    if text == [] then [""]
    else if text[0] == sep then [""] + Split(text[1..], sep)
    else
      var rest := Split(text[1..], sep);
      [[text[0]] + rest[0]] + rest[1..]
  }

  /** `sep.join(pieces)` */
  function Join(pieces: seq<string>, sep: char): string
  {
    if |pieces| == 0 then ""
    else if |pieces| == 1 then pieces[0]
    else pieces[0] + [sep] + Join(pieces[1..], sep)
  }

  /** The number of occurrences of `c` in `s`. */
  function Occurrences(s: string, c: char): nat
  {
    if s == [] then 0 else (if s[0] == c then 1 else 0) + Occurrences(s[1..], c)
  }

  /** No piece of a split contains the separator. */
  lemma {:induction false} SplitPiecesHaveNoSeparator(text: string, sep: char)
    ensures forall i :: 0 <= i < |Split(text, sep)| ==> sep !in Split(text, sep)[i]
  {
    if text != [] {
      SplitPiecesHaveNoSeparator(text[1..], sep);
    }
  }

  /** There is one more piece than there are separators. */
  lemma {:induction false} SplitCount(text: string, sep: char)
    ensures |Split(text, sep)| == Occurrences(text, sep) + 1
  {
    if text != [] {
      SplitCount(text[1..], sep);
    }
  }

  /** Joining the pieces back gives the text. */
  lemma {:induction false} JoinSplit(text: string, sep: char)
    ensures Join(Split(text, sep), sep) == text
  {
    if text != [] {
      JoinSplit(text[1..], sep);
      var rest := Split(text[1..], sep);
      if text[0] == sep {
        JoinCons("", rest, sep);
        assert text == [sep] + text[1..];
      } else {
        JoinExtendHead(text[0], rest, sep);
        assert text == [text[0]] + text[1..];
      }
    }
  }

  /** Joining a first piece in front of at least one more puts a separator between them. */
  lemma JoinCons(p: string, rest: seq<string>, sep: char)
    requires |rest| >= 1
    ensures Join([p] + rest, sep) == p + [sep] + Join(rest, sep)
  {
    assert ([p] + rest)[1..] == rest;
  }

  /** Extending the first piece by `c` puts `c` in front of the join. */
  lemma JoinExtendHead(c: char, rest: seq<string>, sep: char)
    requires |rest| >= 1
    ensures Join([[c] + rest[0]] + rest[1..], sep) == [c] + Join(rest, sep)
  {
    var r := [[c] + rest[0]] + rest[1..];
    assert r[0] == [c] + rest[0] && r[1..] == rest[1..];
    if |rest| > 1 {
      assert Join(r, sep) == [c] + rest[0] + [sep] + Join(rest[1..], sep);
    }
  }

  /** Splitting a join of separator-free pieces gives the pieces back. */
  lemma {:induction false} SplitJoin(pieces: seq<string>, sep: char)
    requires |pieces| >= 1
    requires forall i :: 0 <= i < |pieces| ==> sep !in pieces[i]
    ensures Split(Join(pieces, sep), sep) == pieces
  {
    if |pieces| == 1 {
      SplitNoSeparator(pieces[0], sep);
    } else {
      SplitJoin(pieces[1..], sep);
      SplitAppend(pieces[0], Join(pieces[1..], sep), sep);
    }
  }

  lemma {:induction false} SplitNoSeparator(s: string, sep: char)
    requires sep !in s
    ensures Split(s, sep) == [s]
  {
    if s != [] {
      SplitNoSeparator(s[1..], sep);
      assert s == [s[0]] + s[1..];
    }
  }

  /** Splitting `a + sep + b`, where `a` has no separator, gives `a` then the pieces of `b`. */
  lemma {:induction false} SplitAppend(a: string, b: string, sep: char)
    requires sep !in a
    ensures Split(a + [sep] + b, sep) == [a] + Split(b, sep)
  {
    if a == [] {
      assert [] + [sep] + b == [sep] + b;
      assert ([sep] + b)[1..] == b;
    } else {
      SplitAppend(a[1..], b, sep);
      assert (a + [sep] + b)[1..] == a[1..] + [sep] + b;
      assert a == [a[0]] + a[1..];
    }
  }

  /** A trailing separator adds one empty last piece. */
  lemma {:induction false} SplitTrailingSeparator(text: string, sep: char)
    ensures Split(text + [sep], sep) == Split(text, sep) + [""]
  {
    if text == [] {
      assert [] + [sep] == [sep] && [sep][1..] == [];
    } else {
      SplitTrailingSeparator(text[1..], sep);
      assert (text + [sep])[1..] == text[1..] + [sep];
      assert (text + [sep])[0] == text[0];
    }
  }

  /** The rows export_to_csv hands to the CSV writer: one single-cell row per line. */
  predicate IsRowsOf(rows: seq<seq<string>>, textData: string)
  {
    var lines := Split(textData, '\n');
    |rows| == |lines| && forall i :: 0 <= i < |rows| ==> rows[i] == [lines[i]]
  }

  /**
   * export_to_csv: with no file chosen (the dialog returns an empty name)
   * nothing is written; otherwise the rows written are the lines of the text.
   */
  method ExportToCsv(textData: string, filePath: string) returns (written: Option<seq<seq<string>>>)
    ensures filePath == "" <==> written == None
    ensures written.Some? ==> IsRowsOf(written.value, textData)
  {
    if filePath == "" {
      return None;
    }
    var lines := Split(textData, '\n');
    var rows: seq<seq<string>> := [];
    var i := 0;
    while i < |lines|
      invariant 0 <= i <= |lines|
      invariant |rows| == i
      invariant forall k :: 0 <= k < i ==> rows[k] == [lines[k]]
    {
      rows := rows + [[lines[i]]];
      i := i + 1;
    }
    written := Some(rows);
  }

  /** The cells of the rows, read back in order and joined by newlines, are the text. */
  lemma RowsRestoreText(rows: seq<seq<string>>, textData: string)
    requires IsRowsOf(rows, textData)
    ensures Join(seq(|rows|, i requires 0 <= i < |rows| => rows[i][0]), '\n') == textData
  {
    var cells := seq(|rows|, i requires 0 <= i < |rows| => rows[i][0]);
    assert cells == Split(textData, '\n');
    JoinSplit(textData, '\n');
  }
}
