/** The post-processing half of `calc_line_breaks` (src/printable.rs): the
    glyph layout engine gives one glyph per character of the text, each
    with the y coordinate of its baseline; glyphs of equal y on consecutive
    positions form a line. The y values are taken as an input sequence over
    any type with equality. */
module LineBreaks {
  import opened Results

  /** Rust's `char::is_whitespace`: the characters with the Unicode
      White_Space property. */
  predicate IsWhitespace(c: char) {
    c == ' ' || ('\t' <= c <= '\r') || c == '\U{85}' || c == '\U{A0}' || c == '\U{1680}'
    || ('\U{2000}' <= c <= '\U{200A}') || c == '\U{2028}' || c == '\U{2029}'
    || c == '\U{202F}' || c == '\U{205F}' || c == '\U{3000}'
  }

  /** `str::trim_end`: drop trailing whitespace. */
  function TrimEnd(s: string): (r: string)
    ensures r <= s
    ensures r == [] || !IsWhitespace(r[|r| - 1])
    ensures forall k :: |r| <= k < |s| ==> IsWhitespace(s[k])
  {
    if s != [] && IsWhitespace(s[|s| - 1]) then TrimEnd(s[..|s| - 1]) else s
  }

  /** A glyph starts a line when it is the first, or its y differs from
      the y of the glyph before it (`group_by` on y, keeping the index of
      each group's first element). */
  predicate StartsLine<Y(==)>(ys: seq<Y>, i: int) {
    0 <= i < |ys| && (i == 0 || ys[i] != ys[i - 1])
  }

  /** The index of the first glyph of every line, in order. */
  function LineStarts<Y(==)>(ys: seq<Y>): (r: seq<nat>)
    ensures |r| <= |ys|
    ensures ys != [] ==> |r| > 0
  {
    if ys == [] then []
    else
      var n := |ys| - 1;
      LineStarts(ys[..n]) + (if StartsLine(ys, n) then [n] else [])
  }

  /** `line_indices` after the final push of `text.len()`. */
  function Bounds<Y(==)>(text: string, ys: seq<Y>): seq<int> {
    LineStarts(ys) + [|text|]
  }

  /** `tuple_windows` over the bounds, slicing and trimming each window;
      a window that is not a valid slice of the text panics. */
  function Windows(text: string, bounds: seq<int>): Result<seq<string>>
    decreases |bounds|
  {
    if |bounds| < 2 then Ok([])
    else if !(0 <= bounds[0] <= bounds[1] <= |text|) then Err(SliceOutOfRange)
    else
      match Windows(text, bounds[1..])
      case Err(f) => Err(f)
      case Ok(rest) => Ok([TrimEnd(text[bounds[0]..bounds[1]])] + rest)
  }

  /** Every bound lies in the text and the bounds never decrease: every
      window between consecutive bounds is a valid slice. */
  predicate Sliceable(text: string, bounds: seq<int>) {
    (forall k :: 0 <= k < |bounds| ==> 0 <= bounds[k] <= |text|)
    && (forall k1, k2 :: 0 <= k1 < k2 < |bounds| ==> bounds[k1] <= bounds[k2])
  }

  /** `calc_line_breaks`, given the y coordinate of each glyph. */
  function CalcLineBreaks<Y(==)>(text: string, ys: seq<Y>): Result<seq<string>> {
    Windows(text, Bounds(text, ys))
  }

  // ---------------------------------------------------------------------
  // Line starts

  /** The starts are exactly the glyphs that begin a line, in increasing
      order; the first glyph always begins one. */
  lemma {:induction false} LineStartsExact<Y>(ys: seq<Y>)
    ensures forall k :: 0 <= k < |LineStarts(ys)| ==> StartsLine(ys, LineStarts(ys)[k])
    ensures forall i :: StartsLine(ys, i) ==> i in LineStarts(ys)
    ensures forall k1, k2 :: 0 <= k1 < k2 < |LineStarts(ys)| ==> LineStarts(ys)[k1] < LineStarts(ys)[k2]
    ensures ys != [] ==> |LineStarts(ys)| > 0 && LineStarts(ys)[0] == 0
    ensures forall k :: 0 <= k < |LineStarts(ys)| ==> LineStarts(ys)[k] < |ys|
  {
    if ys != [] {
      var n := |ys| - 1;
      LineStartsExact(ys[..n]);
      assert forall i :: 0 <= i < n ==> (StartsLine(ys[..n], i) <==> StartsLine(ys, i));
    }
  }

  /** No glyphs, no lines. */
  lemma NoGlyphsNoLines<Y>(text: string, ys: seq<Y>)
    requires ys == []
    ensures CalcLineBreaks(text, ys) == Ok([])
  {
  }

  // ---------------------------------------------------------------------
  // Windows

  /** Windows succeed exactly when every bound lies in the text and the
      bounds do not decrease; they then give one line per window, the
      trimmed slice between consecutive bounds. */
  lemma {:induction false} WindowsOk(text: string, bounds: seq<int>)
    ensures Windows(text, bounds).Ok? <==> |bounds| < 2 || Sliceable(text, bounds)
    ensures Windows(text, bounds).Ok? && |bounds| >= 2 ==> WindowsAre(text, bounds, Windows(text, bounds).value)
    decreases |bounds|
  {
    if |bounds| >= 2 {
      WindowsOk(text, bounds[1..]);
      SliceableStep(text, bounds);
      if Windows(text, bounds).Ok? {
        WindowsStep(text, bounds);
      }
    }
  }

  /** `lines` holds one trimmed slice per window of `bounds`. */
  ghost predicate WindowsAre(text: string, bounds: seq<int>, lines: seq<string>)
    requires |bounds| >= 2 && Sliceable(text, bounds)
  {
    |lines| == |bounds| - 1
    && forall k :: 0 <= k < |bounds| - 1 ==> lines[k] == TrimEnd(text[bounds[k]..bounds[k + 1]])
  }

  /** The bounds are sliceable exactly when the first window is a valid
      slice and the bounds after the first are sliceable. */
  lemma SliceableStep(text: string, bounds: seq<int>)
    requires |bounds| >= 2
    ensures Sliceable(text, bounds) <==> 0 <= bounds[0] <= bounds[1] <= |text| && Sliceable(text, bounds[1..])
  {
    var tail := bounds[1..];
    if 0 <= bounds[0] <= bounds[1] <= |text| && Sliceable(text, tail) {
      forall k | 0 <= k < |bounds|
        ensures 0 <= bounds[k] <= |text|
      {
        if k > 0 {
          assert bounds[k] == tail[k - 1];
        }
      }
      forall k1, k2 | 0 <= k1 < k2 < |bounds|
        ensures bounds[k1] <= bounds[k2]
      {
        if k1 > 0 {
          assert tail[k1 - 1] <= tail[k2 - 1];
        } else if k2 > 1 {
          assert tail[0] <= tail[k2 - 1];
        }
      }
    }
    if Sliceable(text, bounds) {
      forall k | 0 <= k < |tail|
        ensures 0 <= tail[k] <= |text|
      {
        assert tail[k] == bounds[k + 1];
      }
      forall k1, k2 | 0 <= k1 < k2 < |tail|
        ensures tail[k1] <= tail[k2]
      {
        assert tail[k1] == bounds[k1 + 1] && tail[k2] == bounds[k2 + 1];
      }
    }
  }

  lemma WindowsStep(text: string, bounds: seq<int>)
    requires |bounds| >= 2 && Windows(text, bounds).Ok?
    requires Sliceable(text, bounds) && Sliceable(text, bounds[1..])
    requires |bounds| > 2 ==> WindowsAre(text, bounds[1..], Windows(text, bounds[1..]).value)
    ensures WindowsAre(text, bounds, Windows(text, bounds).value)
  {
    var tail := bounds[1..];
    var rest := Windows(text, tail).value;
    var lines := Windows(text, bounds).value;
    assert lines == [TrimEnd(text[bounds[0]..bounds[1]])] + rest;
    forall k | 0 <= k < |bounds| - 1
      ensures lines[k] == TrimEnd(text[bounds[k]..bounds[k + 1]])
    {
      if k > 0 {
        assert lines[k] == rest[k - 1];
        assert tail[k - 1] == bounds[k] && tail[k] == bounds[k + 1];
      }
    }
  }

  /** The slicing panics exactly when the last line start lies past the end
      of the text, which takes more glyphs than characters. */
  lemma LineBreaksPanic<Y>(text: string, ys: seq<Y>)
    ensures CalcLineBreaks(text, ys).Err? <==>
      ys != [] && LineStarts(ys)[|LineStarts(ys)| - 1] > |text|
  {
    var starts := LineStarts(ys);
    var b := Bounds(text, ys);
    WindowsOk(text, b);
    if ys != [] && starts[|starts| - 1] > |text| {
      assert !(b[|b| - 2] <= b[|b| - 1]);
    } else {
      BoundsSliceable(text, ys);
    }
  }

  /** When no line start lies past the end of the text, every window is a
      valid slice. */
  lemma BoundsSliceable<Y>(text: string, ys: seq<Y>)
    requires ys == [] || LineStarts(ys)[|LineStarts(ys)| - 1] <= |text|
    ensures Sliceable(text, Bounds(text, ys))
  {
    var starts := LineStarts(ys);
    var b := Bounds(text, ys);
    LineStartsExact(ys);
    forall k | 0 <= k < |b|
      ensures 0 <= b[k] <= |text|
    {
      if k < |starts| {
        assert b[k] == starts[k];
        if k < |starts| - 1 {
          assert starts[k] < starts[|starts| - 1];
        }
      }
    }
    forall k1, k2 | 0 <= k1 < k2 < |b|
      ensures b[k1] <= b[k2]
    {
      if k2 < |starts| {
        assert b[k1] == starts[k1] && b[k2] == starts[k2];
      } else {
        assert b[k1] == starts[k1];
        if k1 < |starts| - 1 {
          assert starts[k1] < starts[|starts| - 1];
        }
      }
    }
  }

  /** The number of lines equals the number of y groups, and line `k` is
      the trimmed text from the start of group `k` to the start of the
      next one (the end of the text for the last). */
  lemma LineBreaksContent<Y>(text: string, ys: seq<Y>)
    requires CalcLineBreaks(text, ys).Ok?
    ensures Sliceable(text, Bounds(text, ys))
    ensures |CalcLineBreaks(text, ys).value| == |LineStarts(ys)|
    ensures forall k :: 0 <= k < |LineStarts(ys)| ==>
      CalcLineBreaks(text, ys).value[k] == TrimEnd(text[Bounds(text, ys)[k]..Bounds(text, ys)[k + 1]])
  {
    WindowsOk(text, Bounds(text, ys));
  }

  /** One glyph per character: the slicing never panics. */
  lemma OneGlyphPerCharNeverPanics<Y>(text: string, ys: seq<Y>)
    requires |ys| <= |text|
    ensures CalcLineBreaks(text, ys).Ok?
  {
    LineBreaksPanic(text, ys);
    LineStartsExact(ys);
  }

  // ---------------------------------------------------------------------
  // Reassembling the text

  /** The untrimmed slices between consecutive bounds, in order. */
  function Slices(text: string, bounds: seq<int>): seq<string>
    requires Sliceable(text, bounds)
    decreases |bounds|
  {
    if |bounds| < 2 then []
    else
      assert Sliceable(text, bounds[1..]);
      [text[bounds[0]..bounds[1]]] + Slices(text, bounds[1..])
  }

  function Concat(ss: seq<string>): string {
    if ss == [] then [] else ss[0] + Concat(ss[1..])
  }

  /** The slices between consecutive bounds put back together give the
      text between the first bound and the last. */
  lemma {:induction false} SlicesConcat(text: string, bounds: seq<int>)
    requires |bounds| >= 1 && Sliceable(text, bounds)
    ensures Concat(Slices(text, bounds)) == text[bounds[0]..bounds[|bounds| - 1]]
    decreases |bounds|
  {
    if |bounds| >= 2 {
      assert Sliceable(text, bounds[1..]);
      SlicesConcat(text, bounds[1..]);
      assert text[bounds[0]..bounds[1]] + text[bounds[1]..bounds[|bounds| - 1]] == text[bounds[0]..bounds[|bounds| - 1]];
    }
  }

  /** With one glyph per character and at least one glyph, the untrimmed
      lines put back together are the whole text, and each returned line
      is its untrimmed slice minus trailing whitespace only. */
  lemma LinesCoverText<Y>(text: string, ys: seq<Y>)
    requires ys != [] && |ys| <= |text|
    ensures CalcLineBreaks(text, ys).Ok?
    ensures var b := Bounds(text, ys);
      Sliceable(text, b)
      && Concat(Slices(text, b)) == text
      && |Slices(text, b)| == |CalcLineBreaks(text, ys).value|
      && forall k :: 0 <= k < |Slices(text, b)| ==>
        CalcLineBreaks(text, ys).value[k] <= Slices(text, b)[k]
  {
    var b := Bounds(text, ys);
    OneGlyphPerCharNeverPanics(text, ys);
    LineStartsExact(ys);
    LineBreaksContent(text, ys);
    SlicesConcat(text, b);
    assert text[0..|text|] == text;
    SlicesIndex(text, b);
    forall k | 0 <= k < |Slices(text, b)|
      ensures CalcLineBreaks(text, ys).value[k] <= Slices(text, b)[k]
    {
      var slice := text[b[k]..b[k + 1]];
      assert CalcLineBreaks(text, ys).value[k] == TrimEnd(slice);
    }
  }

  lemma {:induction false} SlicesIndex(text: string, bounds: seq<int>)
    requires Sliceable(text, bounds)
    ensures |Slices(text, bounds)| == (if |bounds| < 2 then 0 else |bounds| - 1)
    ensures forall k :: 0 <= k < |Slices(text, bounds)| ==> Slices(text, bounds)[k] == text[bounds[k]..bounds[k + 1]]
    decreases |bounds|
  {
    if |bounds| >= 2 {
      assert Sliceable(text, bounds[1..]);
      SlicesIndex(text, bounds[1..]);
    }
  }

  // ---------------------------------------------------------------------
  // Trimming

  /** Trimming keeps leading whitespace: everything up to the last
      character that is not whitespace survives. */
  lemma TrimEndKeepsUpToLastVisible(s: string, j: int)
    requires 0 <= j < |s| && !IsWhitespace(s[j])
    ensures j < |TrimEnd(s)| && TrimEnd(s)[..j + 1] == s[..j + 1]
  {
  }

  /** Trimming twice is trimming once. */
  lemma TrimEndIdempotent(s: string)
    ensures TrimEnd(TrimEnd(s)) == TrimEnd(s)
  {
  }
}
