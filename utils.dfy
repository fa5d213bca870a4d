// The self-contained helpers of the utils module: the second in-place pixel
// filter applyOilyFilter, the class-name combiner cn, the two input-length
// validators and parseAPIError.

module Utils {
  import opened Types
  import opened Pixels
  import opened Strings

  // ---------------------------------------------------------------------
  // applyOilyFilter
  // ---------------------------------------------------------------------

  /** Math.min(255, v). */
  function AtMost255(v: real): (r: real)
    ensures r <= 255.0 && r <= v
    ensures v <= 255.0 ==> r == v
  {
    if v < 255.0 then v else 255.0
  }

  /**
   * The colour applyOilyFilter gives a pixel of grey value `gray`: red
   * 0.8 gray + 30, green 1.1 gray + 20, blue 0.6 gray + 10, each capped at
   * 255 and stored as a byte.
   */
  function OilyPixel(gray: real): Pixel
    requires 0.0 <= gray <= 255.0
  {
    Pixel(ToByte(AtMost255(gray * 0.8 + 30.0)),
          ToByte(AtMost255(gray * 1.1 + 20.0)),
          ToByte(AtMost255(gray * 0.6 + 10.0)))
  }

  /**
   * Pixel `q` of `dst` is the oily colour of the grey value of pixel `q` of
   * `src`, with the alpha of `src`.
   */
  ghost predicate OilyAt(src: seq<Byte>, dst: seq<Byte>, q: int)
    requires 0 <= q && 4 * q + 3 < |src| && |dst| == |src|
  {
    var px := OilyPixel(Luma(src[4 * q], src[4 * q + 1], src[4 * q + 2]));
    dst[4 * q] == px.r && dst[4 * q + 1] == px.g && dst[4 * q + 2] == px.b
    && dst[4 * q + 3] == src[4 * q + 3]
  }

  /**
   * applyOilyFilter on the RGBA bytes of a canvas: every pixel takes the
   * oily colour of its own grey value; alpha is never written. The colour
   * depends on the grey value alone, so pixels of equal grey get equal colours.
   */
  method ApplyOilyFilter(data: array<Byte>)
    requires data.Length % 4 == 0
    modifies data
    ensures forall q :: 0 <= q < data.Length / 4 ==> OilyAt(old(data[..]), data[..], q)
  {
    ghost var orig := data[..];
    ghost var pixels := data.Length / 4;
    ghost var done := 0;
    var i := 0;
    while i < data.Length
      invariant data.Length == 4 * pixels
      invariant 0 <= done <= pixels && i == 4 * done
      invariant forall q :: 0 <= q < done ==> OilyAt(orig, data[..], q)
      invariant data[i..] == orig[i..]
    {
      ghost var before := data[..];
      OilyPixelInPlace(data, i);
      OilyStep(orig, before, data[..], done);
      i := i + 4;
      done := done + 1;
    }
  }

  /** The loop body: pixel `i` takes the oily colour of its grey value. */
  method OilyPixelInPlace(data: array<Byte>, i: nat)
    requires i + 2 < data.Length
    modifies data
    ensures var px := OilyPixel(Luma(old(data[i]), old(data[i + 1]), old(data[i + 2])));
      data[..] == old(data[..])[i := px.r][i + 1 := px.g][i + 2 := px.b]
  {
    var r := data[i];
    var g := data[i + 1];
    var b := data[i + 2];
    var gray := 0.299 * (r as real) + 0.587 * (g as real) + 0.114 * (b as real);
    assert gray == Luma(r, g, b);
    var newR: Byte := ToByte(AtMost255(gray * 0.8 + 30.0));
    var newG: Byte := ToByte(AtMost255(gray * 1.1 + 20.0));
    var newB: Byte := ToByte(AtMost255(gray * 0.6 + 10.0));
    data[i] := newR;
    data[i + 1] := newG;
    data[i + 2] := newB;
  }

  /**
   * Writing the oily colour into pixel `n` keeps the pixels before it done
   * and the bytes after it untouched.
   */
  lemma OilyStep(orig: seq<Byte>, before: seq<Byte>, after: seq<Byte>, n: nat)
    requires |orig| == |before| == |after| && 4 * n + 3 < |orig|
    requires forall q :: 0 <= q < n ==> OilyAt(orig, before, q)
    requires before[4 * n..] == orig[4 * n..]
    requires var px := OilyPixel(Luma(before[4 * n], before[4 * n + 1], before[4 * n + 2]));
      after == before[4 * n := px.r][4 * n + 1 := px.g][4 * n + 2 := px.b]
    ensures forall q :: 0 <= q <= n ==> OilyAt(orig, after, q)
    ensures after[4 * n + 4..] == orig[4 * n + 4..]
  {
    assert before[4 * n] == orig[4 * n] && before[4 * n + 1] == orig[4 * n + 1];
    assert before[4 * n + 2] == orig[4 * n + 2] && before[4 * n + 3] == orig[4 * n + 3];
    forall q | 0 <= q <= n
      ensures OilyAt(orig, after, q)
    {
      if q < n {
        assert OilyAt(orig, before, q);
      }
    }
    assert after[4 * n + 4..] == before[4 * n + 4..];
  }

  /** Every channel has a floor: red at least 30, green at least 20, blue at least 10. */
  lemma OilyPixelFloors(gray: real)
    requires 0.0 <= gray <= 255.0
    ensures var px := OilyPixel(gray); px.r >= 30 && px.g >= 20 && px.b >= 10
  {
    ToByteMonotone(30.0, AtMost255(gray * 0.8 + 30.0));
    ToByteMonotone(20.0, AtMost255(gray * 1.1 + 20.0));
    ToByteMonotone(10.0, AtMost255(gray * 0.6 + 10.0));
    ToByteOfByte(30);
    ToByteOfByte(20);
    ToByteOfByte(10);
  }

  /** A lighter grey never gives a darker channel. */
  lemma OilyPixelMonotone(g1: real, g2: real)
    requires 0.0 <= g1 <= g2 <= 255.0
    ensures OilyPixel(g1).r <= OilyPixel(g2).r
    ensures OilyPixel(g1).g <= OilyPixel(g2).g
    ensures OilyPixel(g1).b <= OilyPixel(g2).b
  {
    ToByteMonotone(AtMost255(g1 * 0.8 + 30.0), AtMost255(g2 * 0.8 + 30.0));
    ToByteMonotone(AtMost255(g1 * 1.1 + 20.0), AtMost255(g2 * 1.1 + 20.0));
    ToByteMonotone(AtMost255(g1 * 0.6 + 10.0), AtMost255(g2 * 0.6 + 10.0));
  }

  /** Blue is always the weakest channel: the filter leans towards yellow-green. */
  lemma OilyPixelLeansYellowGreen(gray: real)
    requires 0.0 <= gray <= 255.0
    ensures OilyPixel(gray).b < OilyPixel(gray).r
    ensures OilyPixel(gray).b < OilyPixel(gray).g
  {
    var r := AtMost255(gray * 0.8 + 30.0);
    var g := AtMost255(gray * 1.1 + 20.0);
    var b := AtMost255(gray * 0.6 + 10.0);
    ToByteIsNearest(r);
    ToByteIsNearest(g);
    ToByteIsNearest(b);
  }

  /** Black becomes (30, 20, 10); white becomes (234, 255, 163), green capped at 255. */
  lemma OilyPixelOfBlackAndWhite()
    ensures var px := OilyPixel(Luma(0, 0, 0)); px.r == 30 && px.g == 20 && px.b == 10
    ensures var px := OilyPixel(Luma(255, 255, 255)); px.r == 234 && px.g == 255 && px.b == 163
  {
    ToByteOfByte(30);
    ToByteOfByte(20);
    ToByteOfByte(10);
    ToByteOfByte(234);
    ToByteOfByte(255);
    ToByteOfByte(163);
  }

  // ---------------------------------------------------------------------
  // cn
  // ---------------------------------------------------------------------

  /**
   * A ClassValue: a string, a number, a boolean, undefined, null, or an
   * object mapping class names to booleans (its entries in Object.entries order).
   */
  datatype ClassValue =
    | StrValue(s: string)
    | NumValue(n: real)
    | BoolValue(b: bool)
    | Undefined
    | Null
    | ObjValue(entries: seq<(string, bool)>)

  /** Boolean(v): the empty string, 0, false, undefined and null are falsy; objects are truthy. */
  predicate Truthy(v: ClassValue)
  {
    match v
    case StrValue(s) => s != []
    case NumValue(n) => n != 0.0
    case BoolValue(b) => b
    case Undefined => false
    case Null => false
    case ObjValue(_) => true
  }

  /** The keys of the entries whose value is true, in order. */
  function TrueKeys(entries: seq<(string, bool)>): (keys: seq<string>)
    ensures |keys| <= |entries|
    ensures forall k :: k in keys ==> (k, true) in entries
    ensures forall i :: 0 <= i < |entries| && entries[i].1 ==> entries[i].0 in keys
  {
    if entries == [] then []
    else
      assert forall i :: 1 <= i < |entries| ==> entries[i] == entries[1..][i - 1];
      (if entries[0].1 then [entries[0].0] else []) + TrueKeys(entries[1..])
  }

  /** The true keys of a concatenation are the true keys of each part, in order. */
  lemma {:induction false} TrueKeysAppend(a: seq<(string, bool)>, b: seq<(string, bool)>)
    ensures TrueKeys(a + b) == TrueKeys(a) + TrueKeys(b)
  {
    if a == [] {
      assert a + b == b;
    } else {
      assert (a + b)[0] == a[0];
      assert (a + b)[1..] == a[1..] + b;
      TrueKeysAppend(a[1..], b);
    }
  }

  /** What one truthy input contributes: a string itself, an object its true keys joined by spaces, anything else ''. */
  function Segment(v: ClassValue): string
  {
    match v
    case StrValue(s) => s
    case ObjValue(entries) => Join(TrueKeys(entries), " ")
    case _ => ""
  }

  /** The segments of the truthy inputs, in order. */
  function Segments(inputs: seq<ClassValue>): (segs: seq<string>)
    ensures |segs| <= |inputs|
  {
    if inputs == [] then []
    else (if Truthy(inputs[0]) then [Segment(inputs[0])] else []) + Segments(inputs[1..])
  }

  /** cn: the segments joined by single spaces and trimmed. */
  function Cn(inputs: seq<ClassValue>): (r: string)
    ensures NoOuterSpace(r)
  {
    Trim(Join(Segments(inputs), " "))
  }

  /** The segments of a concatenation are the concatenated segments. */
  lemma {:induction false} SegmentsAppend(xs: seq<ClassValue>, ys: seq<ClassValue>)
    ensures Segments(xs + ys) == Segments(xs) + Segments(ys)
  {
    if xs != [] {
      var head := if Truthy(xs[0]) then [Segment(xs[0])] else [];
      assert (xs + ys)[0] == xs[0];
      assert (xs + ys)[1..] == xs[1..] + ys;
      SegmentsAppend(xs[1..], ys);
      assert Segments(xs + ys) == head + (Segments(xs[1..]) + Segments(ys));
      assert Segments(xs) == head + Segments(xs[1..]);
    } else {
      assert xs + ys == ys;
    }
  }

  /** A falsy input contributes nothing, wherever it stands. */
  lemma CnDropsFalsy(xs: seq<ClassValue>, v: ClassValue, ys: seq<ClassValue>)
    requires !Truthy(v)
    ensures Cn(xs + [v] + ys) == Cn(xs + ys)
  {
    SegmentsAppend(xs + [v], ys);
    SegmentsAppend(xs, [v]);
    SegmentsAppend(xs, ys);
    assert Segments([v]) == [];
    assert Segments(xs + [v] + ys) == Segments(xs + ys);
  }

  /** A single string comes back trimmed; a string without outer spaces unchanged. */
  lemma CnOfOneString(s: string)
    ensures Cn([StrValue(s)]) == Trim(s)
    ensures NoOuterSpace(s) ==> Cn([StrValue(s)]) == s
  {
    if s == [] {
      assert Segments([StrValue(s)]) == [];
    } else {
      assert Segments([StrValue(s)]) == [s];
    }
    if NoOuterSpace(s) {
      TrimOfTrimmed(s);
    }
  }

  /** A truthy input contributes its own segment, in its place, wherever it stands. */
  lemma TruthyContributesItsSegment(xs: seq<ClassValue>, v: ClassValue, ys: seq<ClassValue>)
    requires Truthy(v)
    ensures Segments(xs + [v] + ys) == Segments(xs) + [Segment(v)] + Segments(ys)
  {
    SegmentsAppend(xs + [v], ys);
    SegmentsAppend(xs, [v]);
    assert [v][1..] == [];
    assert Segments([v]) == [Segment(v)];
  }

  /**
   * `true` and non-zero numbers contribute an empty segment, which leaves a
   * double space between the segments around it.
   */
  lemma CnTrueLeavesDoubleSpace(xs: seq<ClassValue>, v: ClassValue, ys: seq<ClassValue>)
    requires v == BoolValue(true) || (v.NumValue? && v.n != 0.0)
    ensures Segments(xs + [v] + ys) == Segments(xs) + [""] + Segments(ys)
    ensures Segments(xs) != [] && Segments(ys) != [] ==>
      Join(Segments(xs + [v] + ys), " ") == Join(Segments(xs), " ") + "  " + Join(Segments(ys), " ")
    ensures Cn([StrValue("a"), BoolValue(true), StrValue("b")]) == "a  b"
  {
    TruthyContributesItsSegment(xs, v, ys);
    if Segments(xs) != [] && Segments(ys) != [] {
      JoinAppend(Segments(xs) + [""], Segments(ys), " ");
      JoinAppend(Segments(xs), [""], " ");
    }
    var inputs := [StrValue("a"), BoolValue(true), StrValue("b")];
    assert inputs[1..][1..] == [StrValue("b")];
    assert Segments(inputs) == ["a", "", "b"];
    assert Join(["a", "", "b"], " ") == "a  b";
    TrimOfTrimmed("a  b");
  }

  /**
   * An object contributes, in its place, the keys whose value is true, in
   * order, joined by single spaces.
   */
  lemma CnOfObject(xs: seq<ClassValue>, entries: seq<(string, bool)>, ys: seq<ClassValue>)
    ensures Segments(xs + [ObjValue(entries)] + ys) == Segments(xs) + [Join(TrueKeys(entries), " ")] + Segments(ys)
    ensures Cn([ObjValue([("a", true), ("b", false), ("c", true)])]) == "a c"
  {
    TruthyContributesItsSegment(xs, ObjValue(entries), ys);
    var sample := [("a", true), ("b", false), ("c", true)];
    assert sample[1..][1..] == [("c", true)];
    assert TrueKeys(sample) == ["a", "c"];
    assert Join(["a", "c"], " ") == "a c";
    assert Segment(ObjValue(sample)) == "a c";
    assert Segments([ObjValue(sample)]) == ["a c"];
    TrimOfTrimmed("a c");
  }

  // ---------------------------------------------------------------------
  // Validators
  // ---------------------------------------------------------------------

  /** `{ isValid, message? }`. */
  datatype Validation = Validation(isValid: bool, message: Option<string>)

  /**
   * The shared shape of the validators: the trimmed input must be between
   * `minLen` and `maxLen` characters; the checks run in the order empty, too
   * short, too long.
   */
  function ValidateLength(input: string, minLen: nat, maxLen: nat,
                          emptyMsg: string, shortMsg: string, longMsg: string): (r: Validation)
    requires 1 <= minLen <= maxLen
    ensures r.isValid <==> minLen <= |Trim(input)| <= maxLen
    ensures r.isValid <==> r.message.None?
    ensures |Trim(input)| == 0 ==> r.message == Some(emptyMsg)
    ensures 0 < |Trim(input)| < minLen ==> r.message == Some(shortMsg)
    ensures |Trim(input)| > maxLen ==> r.message == Some(longMsg)
  {
    var n := |Trim(input)|;
    if input == [] || n == 0 then Validation(false, Some(emptyMsg))
    else if n < minLen then Validation(false, Some(shortMsg))
    else if n > maxLen then Validation(false, Some(longMsg))
    else Validation(true, None)
  }

  /** validateFoodName: valid exactly when the trimmed name has 2 to 50 characters. */
  function ValidateFoodName(name: string): (r: Validation)
    ensures r.isValid <==> 2 <= |Trim(name)| <= 50
    ensures |Trim(name)| == 0 ==> r.message == Some("请输入食物名称")
    ensures 0 < |Trim(name)| < 2 ==> r.message == Some("食物名称至少需要2个字符")
    ensures |Trim(name)| > 50 ==> r.message == Some("食物名称不能超过50个字符")
  {
    ValidateLength(name, 2, 50, "请输入食物名称", "食物名称至少需要2个字符", "食物名称不能超过50个字符")
  }

  /** validateDialogueInput: valid exactly when the trimmed input has 3 to 200 characters. */
  function ValidateDialogueInput(input: string): (r: Validation)
    ensures r.isValid <==> 3 <= |Trim(input)| <= 200
    ensures |Trim(input)| == 0 ==> r.message == Some("请输入你想吃的理由")
    ensures 0 < |Trim(input)| < 3 ==> r.message == Some("理由至少需要3个字符")
    ensures |Trim(input)| > 200 ==> r.message == Some("理由不能超过200个字符")
  {
    ValidateLength(input, 3, 200, "请输入你想吃的理由", "理由至少需要3个字符", "理由不能超过200个字符")
  }

  /** Surrounding whitespace never changes a verdict or a message. */
  lemma ValidationIgnoresPadding(s: string)
    ensures ValidateFoodName(s) == ValidateFoodName(Trim(s))
    ensures ValidateDialogueInput(s) == ValidateDialogueInput(Trim(s))
  {
    TrimOfTrimmed(Trim(s));
  }

  /** A whitespace-only input is reported as empty, not as too short. */
  lemma BlankInputIsEmpty(s: string)
    requires AllSpace(s)
    ensures ValidateFoodName(s).message == Some("请输入食物名称")
    ensures ValidateDialogueInput(s).message == Some("请输入你想吃的理由")
  {
    TrimEmptyIffAllSpace(s);
  }

  // ---------------------------------------------------------------------
  // parseAPIError
  // ---------------------------------------------------------------------

  /**
   * The thrown value handed to parseAPIError: null or undefined, a string,
   * an object with an optional string `message`, or anything else (a number,
   * a boolean), which has no `message`.
   */
  datatype ErrorValue =
    | Nullish
    | TextError(text: string)
    | ObjectError(message: Option<string>)
    | OtherError

  const DefaultErrorText: string := "服务暂时不可用，请稍后再试"

  /**
   * parseAPIError: a truthy `message` first, then the value itself if it is
   * a string (even the empty one), and the fixed text otherwise.
   */
  function ParseAPIError(e: ErrorValue): (r: string)
    ensures e.ObjectError? && e.message.Some? && e.message.value != [] ==> r == e.message.value
    ensures e.TextError? ==> r == e.text
    ensures e.Nullish? || e.OtherError? || e == ObjectError(None) || e == ObjectError(Some([])) ==> r == DefaultErrorText
  {
    match e
    case ObjectError(Some(m)) => if m != [] then m else DefaultErrorText
    case TextError(s) => s
    case _ => DefaultErrorText
  }

  /** The message is empty only for an empty string thrown as the error. */
  lemma ParseAPIErrorEmptyOnlyForEmptyString(e: ErrorValue)
    ensures ParseAPIError(e) == [] <==> e == TextError([])
  {
  }
}
