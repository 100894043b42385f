/**
 * The open-file dialog filter of the sample application: one
 * `description|pattern` pair for every pattern the dialog offers, all
 * separated by '|'. The codec list that the system reports is a parameter.
 */
module ImageFilter {

  /** An image encoder as the system describes it. */
  datatype Codec = Codec(codecName: string, filenameExtension: string)

  /**
   * The filter, or the position of the first codec whose name is too short
   * for `Substring(8)`, which throws ArgumentOutOfRangeException there.
   */
  datatype Result<T> = Success(value: T) | Failure(codecIndex: nat)

  const Separator: char := '|'
  const AllFilesDescription: string := "All Files (*.*)"
  const AllFilesPattern: string := "*.*"
  const IcoDescription: string := "ICO Files (*.ICO)"
  const IcoPattern: string := "*.ico"

  /** "All Files (*.*)|*.*|", the start of every filter. */
  const Head: string := AllFilesDescription + [Separator] + AllFilesPattern + [Separator]
  /** "ICO Files (*.ICO)|*.ico", the end of every filter. */
  const Tail: string := IcoDescription + [Separator] + IcoPattern

  // ---------------------------------------------------------------------
  // The string operations the builder uses

  /**
   * `String.Replace(pattern, replacement)`: every occurrence of pattern,
   * found left to right without overlap, is replaced.
   */
  function ReplaceAll(s: string, pattern: string, replacement: string): (r: string)
    requires |pattern| > 0
    ensures |pattern| == |replacement| ==> |r| == |s|
    ensures |s| < |pattern| ==> r == s
  {
    if |s| < |pattern| then s
    else if s[..|pattern|] == pattern then
      replacement + ReplaceAll(s[|pattern|..], pattern, replacement)
    else
      [s[0]] + ReplaceAll(s[1..], pattern, replacement)
  }

  /** A character in neither s nor the replacement is not in the result. */
  lemma {:induction false} ReplaceAllKeepsOut(s: string, pattern: string, replacement: string, c: char)
    requires |pattern| > 0 && c !in s && c !in replacement
    ensures c !in ReplaceAll(s, pattern, replacement)
    decreases |s|
  {
    if |s| >= |pattern| {
      assert forall k :: 0 <= k < |s| - |pattern| ==> s[|pattern|..][k] == s[|pattern| + k];
      assert forall k :: 0 <= k < |s| - 1 ==> s[1..][k] == s[1 + k];
      ReplaceAllKeepsOut(s[|pattern|..], pattern, replacement, c);
      ReplaceAllKeepsOut(s[1..], pattern, replacement, c);
    }
  }

  /** `char.IsWhiteSpace`: the Unicode separators and the controls it counts as space. */
  predicate IsWhiteSpace(c: char): (b: bool)
    ensures c == ' ' || c == '\t' || c == '\n' || c == '\r' ==> b
    ensures 0x21 <= c as int <= 0x7E ==> !b
  {
    var n := c as int;
    || (0x09 <= n <= 0x0D) || n == 0x20 || n == 0x85 || n == 0xA0 || n == 0x1680
    || (0x2000 <= n <= 0x200A) || n == 0x2028 || n == 0x2029 || n == 0x202F
    || n == 0x205F || n == 0x3000
  }

  /** The first position at or after i that does not hold white space. */
  function FirstNonWhite(s: string, i: nat): (j: nat)
    requires i <= |s|
    ensures i <= j <= |s|
    ensures forall k :: i <= k < j ==> IsWhiteSpace(s[k])
    ensures j < |s| ==> !IsWhiteSpace(s[j])
    decreases |s| - i
  {
    if i < |s| && IsWhiteSpace(s[i]) then FirstNonWhite(s, i + 1) else i
  }

  /** The end of s[lo..j] once its trailing white space is cut off. */
  function EndOfNonWhite(s: string, lo: nat, j: nat): (e: nat)
    requires lo <= j <= |s|
    ensures lo <= e <= j
    ensures forall k :: e <= k < j ==> IsWhiteSpace(s[k])
    ensures e > lo ==> !IsWhiteSpace(s[e - 1])
    decreases j
  {
    if j > lo && IsWhiteSpace(s[j - 1]) then EndOfNonWhite(s, lo, j - 1) else j
  }

  /**
   * `String.Trim()`: leading white space is cut off, then trailing white
   * space; what remains neither starts nor ends with white space.
   */
  function Trim(s: string): (r: string)
    ensures |r| <= |s|
    ensures |r| > 0 ==> !IsWhiteSpace(r[0]) && !IsWhiteSpace(r[|r| - 1])
  {
    var start := FirstNonWhite(s, 0);
    s[start..EndOfNonWhite(s, start, |s|)]
  }

  /** What Trim keeps is a contiguous piece of s, and all it cuts off is white space. */
  lemma TrimIsSlice(s: string) returns (lo: nat)
    ensures lo + |Trim(s)| <= |s| && Trim(s) == s[lo..lo + |Trim(s)|]
    ensures forall k :: 0 <= k < lo ==> IsWhiteSpace(s[k])
    ensures forall k :: lo + |Trim(s)| <= k < |s| ==> IsWhiteSpace(s[k])
  {
    lo := FirstNonWhite(s, 0);
  }

  /** A character not in s is not in Trim(s). */
  lemma TrimKeepsOut(s: string, c: char)
    requires c !in s
    ensures c !in Trim(s)
  {
    var lo := TrimIsSlice(s);
    assert forall k :: 0 <= k < |Trim(s)| ==> Trim(s)[k] == s[lo + k];
  }

  /** A string made only of white space trims to nothing. */
  lemma TrimBlank(s: string)
    requires forall k :: 0 <= k < |s| ==> IsWhiteSpace(s[k])
    ensures Trim(s) == []
  {
  }

  // ---------------------------------------------------------------------
  // The filter, as a reference definition

  /**
   * Substring(8), then Replace("Codec", "Files"), then Trim(). A shorter
   * name makes Substring throw; FilterOf reports that case.
   */
  function DisplayName(codecName: string): (r: string)
    requires |codecName| >= 8
    ensures |r| <= |codecName| - 8
    ensures |r| > 0 ==> !IsWhiteSpace(r[0]) && !IsWhiteSpace(r[|r| - 1])
  {
    Trim(ReplaceAll(codecName[8..], "Codec", "Files"))
  }

  /**
   * The system's encoders are named "Built-in <kind> Codec"; such a codec is
   * offered as "<kind> Files" whenever the kind has no 'C' and no white space
   * at its ends (as "BMP", "JPEG", "GIF", "TIFF" and "PNG").
   */
  lemma DisplayNameOfBuiltIn(kind: string)
    requires |kind| > 0 && 'C' !in kind
    requires !IsWhiteSpace(kind[0]) && !IsWhiteSpace(kind[|kind| - 1])
    ensures DisplayName("Built-in " + kind + " Codec") == kind + " Files"
  {
    ReplaceBuiltIn(kind);
    TrimLeadingSpace(kind + " Files");
    assert " " + kind + " Files" == " " + (kind + " Files");
  }

  /** Past "Built-in", only the trailing "Codec" is replaced. */
  lemma ReplaceBuiltIn(kind: string)
    requires 'C' !in kind
    ensures ReplaceAll(("Built-in " + kind + " Codec")[8..], "Codec", "Files") == " " + kind + " Files"
  {
    var p, r := "Codec", "Files";
    var t := " " + kind + " ";
    assert ("Built-in " + kind + " Codec")[8..] == t + p;
    forall k | 0 <= k < |t|
      ensures t[k] != p[0]
    {
      if 0 < k < |t| - 1 {
        assert t[k] == kind[k - 1];
      }
    }
    ReplaceKeepsPrefix(t, p, p, r);
    ReplaceWhole(p, r);
  }

  /** One leading space comes off a string with no white space at its ends. */
  lemma TrimLeadingSpace(x: string)
    requires |x| > 0 && !IsWhiteSpace(x[0]) && !IsWhiteSpace(x[|x| - 1])
    ensures Trim(" " + x) == x
  {
    var u := " " + x;
    assert FirstNonWhite(u, 0) == 1 by {
      assert u[1] == x[0];
    }
    assert EndOfNonWhite(u, 1, |u|) == |u|;
    assert u[1..] == x;
  }

  /** A lead-in holding no first character of the pattern is kept as it is. */
  lemma {:induction false} ReplaceKeepsPrefix(t: string, rest: string, p: string, r: string)
    requires |p| > 0 && |rest| >= |p|
    requires forall k :: 0 <= k < |t| ==> t[k] != p[0]
    ensures ReplaceAll(t + rest, p, r) == t + ReplaceAll(rest, p, r)
    decreases |t|
  {
    if |t| > 0 {
      var more := t[1..];
      assert forall k :: 0 <= k < |more| ==> more[k] == t[k + 1];
      ReplaceKeepsPrefix(more, rest, p, r);
      assert t == [t[0]] + more;
      SkipStep(t[0], more, rest, p, r);
    } else {
      assert t + rest == rest;
      assert t + ReplaceAll(rest, p, r) == ReplaceAll(rest, p, r);
    }
  }

  /** One more kept character in front of a kept lead-in. */
  lemma SkipStep(c: char, more: string, rest: string, p: string, r: string)
    requires |p| > 0 && |rest| >= |p| && c != p[0]
    requires ReplaceAll(more + rest, p, r) == more + ReplaceAll(rest, p, r)
    ensures ReplaceAll([c] + more + rest, p, r) == [c] + more + ReplaceAll(rest, p, r)
  {
    assert [c] + more + rest == [c] + (more + rest);
    ReplaceSkip(c, more + rest, p, r);
    assert [c] + (more + ReplaceAll(rest, p, r)) == [c] + more + ReplaceAll(rest, p, r);
  }

  /** A whole string that is the pattern becomes the replacement. */
  lemma ReplaceWhole(p: string, r: string)
    requires |p| > 0
    ensures ReplaceAll(p, p, r) == r
  {
    assert p[..|p|] == p;
    assert r + [] == r;
  }

  /** A leading character that does not start the pattern is kept. */
  lemma ReplaceSkip(c: char, s: string, p: string, r: string)
    requires |p| > 0 && |s| + 1 >= |p| && c != p[0]
    ensures ReplaceAll([c] + s, p, r) == [c] + ReplaceAll(s, p, r)
  {
    assert ([c] + s)[..|p|][0] == c;
    assert ([c] + s)[1..] == s;
  }

  /** Every codec name is long enough for Substring(8). */
  predicate AllNamed(codecs: seq<Codec>) {
    forall i :: 0 <= i < |codecs| ==> |codecs[i].codecName| >= 8
  }

  /** The description field a codec contributes: "name (extension)". */
  function Description(c: Codec): (r: string)
    requires |c.codecName| >= 8
    ensures var d := DisplayName(c.codecName);
            && |r| == |d| + |c.filenameExtension| + 3
            && r[..|d|] == d && r[|d|..|d| + 2] == " (" && r[|r| - 1] == ')'
            && r[|d| + 2..|r| - 1] == c.filenameExtension
  {
    DisplayName(c.codecName) + " (" + c.filenameExtension + ")"
  }

  /** The `description|pattern` pair a codec contributes. */
  function Entry(c: Codec): (r: string)
    requires |c.codecName| >= 8
    ensures var d := Description(c);
            && |r| == |d| + 1 + |c.filenameExtension|
            && r[..|d|] == d && r[|d|] == Separator && r[|d| + 1..] == c.filenameExtension
  {
    Description(c) + [Separator] + c.filenameExtension
  }

  function Entries(codecs: seq<Codec>): (es: seq<string>)
    requires AllNamed(codecs)
    ensures |es| == |codecs|
  {
    if |codecs| == 0 then []
    else Entries(codecs[..|codecs| - 1]) + [Entry(codecs[|codecs| - 1])]
  }

  /** The pieces joined in order, with one separator between neighbours. */
  function Join(pieces: seq<string>): (r: string)
    ensures |pieces| == 0 ==> r == []
    ensures |pieces| > 0 ==> var last := pieces[|pieces| - 1];
                             |last| <= |r| && r[|r| - |last|..] == last
  {
    if |pieces| == 0 then ""
    else if |pieces| == 1 then pieces[0]
    else Join(pieces[..|pieces| - 1]) + [Separator] + pieces[|pieces| - 1]
  }

  /** A join starts with its first piece. */
  lemma {:induction false} JoinStartsWithFirst(pieces: seq<string>)
    requires |pieces| > 0
    ensures |pieces[0]| <= |Join(pieces)| && Join(pieces)[..|pieces[0]|] == pieces[0]
    decreases |pieces|
  {
    var n := |pieces|;
    if n > 1 {
      var init := pieces[..n - 1];
      JoinStartsWithFirst(init);
      var j := Join(init);
      assert Join(pieces) == j + ([Separator] + pieces[n - 1]);
      assert (j + ([Separator] + pieces[n - 1]))[..|init[0]|] == j[..|init[0]|];
    }
  }

  /** The position of the first codec whose name is too short, if any. */
  function FirstUnnamed(codecs: seq<Codec>): (i: nat)
    requires !AllNamed(codecs)
    ensures i < |codecs| && |codecs[i].codecName| < 8
    ensures forall j :: 0 <= j < i ==> |codecs[j].codecName| >= 8
  {
    if |codecs[0].codecName| < 8 then 0 else 1 + FirstUnnamed(codecs[1..])
  }

  /**
   * The filter as a whole: the "All Files" pair, the codec pairs in input
   * order, and the "ICO Files" pair, separated by '|'.
   */
  function FilterOf(codecs: seq<Codec>): (r: Result<string>)
    ensures r.Failure? <==> !AllNamed(codecs)
  {
    if !AllNamed(codecs) then Failure(FirstUnnamed(codecs))
    else Success(Head + Join(Entries(codecs)) + (if |codecs| > 0 then [Separator] else []) + Tail)
  }

  // ---------------------------------------------------------------------
  // The builder

  /**
   * GenerateImageFilter: appends each codec's pair to the filter, with a
   * separator before every pair but the first, then appends the ICO pair.
   */
  method GenerateImageFilter(codecs: seq<Codec>) returns (r: Result<string>)
    ensures r == FilterOf(codecs)
  {
    var filter := Head;
    var sep: string := [];
    var i := 0;
    while i < |codecs|
      invariant 0 <= i <= |codecs|
      invariant AllNamed(codecs[..i])
      invariant filter == Head + Join(Entries(codecs[..i]))
      invariant sep == if i > 0 then [Separator] else []
    {
      var c := codecs[i];
      if |c.codecName| < 8 {
        FirstUnnamedAt(codecs, i);
        return Failure(i);
      }
      var codecName := Trim(ReplaceAll(c.codecName[8..], "Codec", "Files"));
      var entry := codecName + " (" + c.filenameExtension + ")" + [Separator] + c.filenameExtension;
      ExtendFilter(codecs, i, filter, sep, entry);
      filter := filter + sep + entry;
      sep := [Separator];
      i := i + 1;
    }
    assert codecs[..i] == codecs;
    FinishFilter(codecs, filter, sep);
    filter := filter + sep + Tail;
    r := Success(filter);
  }

  /** One pass of the loop: the filter so far plus the next pair is the filter of one more codec. */
  lemma ExtendFilter(codecs: seq<Codec>, i: nat, filter: string, sep: string, entry: string)
    requires i < |codecs| && AllNamed(codecs[..i]) && |codecs[i].codecName| >= 8
    requires filter == Head + Join(Entries(codecs[..i]))
    requires sep == if i > 0 then [Separator] else []
    requires entry == Trim(ReplaceAll(codecs[i].codecName[8..], "Codec", "Files")) + " (" + codecs[i].filenameExtension + ")"
                      + [Separator] + codecs[i].filenameExtension
    ensures AllNamed(codecs[..i + 1])
    ensures filter + sep + entry == Head + Join(Entries(codecs[..i + 1]))
  {
    EntryUnfolds(codecs[i]);
    AppendEntry(codecs, i);
    ConcatAssoc(Head, Join(Entries(codecs[..i])), sep, Entry(codecs[i]));
  }

  lemma ConcatAssoc(a: string, b: string, c: string, d: string)
    ensures a + b + c + d == a + (b + c + d)
  {
  }

  /** After the last codec, appending the ICO pair completes the filter. */
  lemma FinishFilter(codecs: seq<Codec>, filter: string, sep: string)
    requires AllNamed(codecs) && filter == Head + Join(Entries(codecs))
    requires sep == if |codecs| > 0 then [Separator] else []
    ensures FilterOf(codecs) == Success(filter + sep + Tail)
  {
  }

  lemma EntryUnfolds(c: Codec)
    requires |c.codecName| >= 8
    ensures Entry(c) == Trim(ReplaceAll(c.codecName[8..], "Codec", "Files")) + " (" + c.filenameExtension + ")"
                        + [Separator] + c.filenameExtension
  {
  }

  lemma FirstUnnamedAt(codecs: seq<Codec>, i: nat)
    requires i < |codecs| && |codecs[i].codecName| < 8 && AllNamed(codecs[..i])
    ensures !AllNamed(codecs) && FirstUnnamed(codecs) == i
    ensures FilterOf(codecs) == Failure(i)
  {
    assert FirstUnnamed(codecs) <= i;
  }

  /** One more codec adds its pair after a separator, or alone when it is the first. */
  lemma AppendEntry(codecs: seq<Codec>, i: nat)
    requires i < |codecs| && AllNamed(codecs[..i]) && |codecs[i].codecName| >= 8
    ensures AllNamed(codecs[..i + 1])
    ensures Join(Entries(codecs[..i + 1]))
         == Join(Entries(codecs[..i])) + (if i > 0 then [Separator] else []) + Entry(codecs[i])
  {
    var prefix := codecs[..i + 1];
    forall j | 0 <= j < i + 1
      ensures |prefix[j].codecName| >= 8
    {
      if j < i {
        assert prefix[j] == codecs[..i][j];
      }
    }
    assert prefix[..i] == codecs[..i];
    var es := Entries(prefix);
    assert es == Entries(codecs[..i]) + [Entry(codecs[i])];
    assert es[..|es| - 1] == Entries(codecs[..i]);
  }

  // ---------------------------------------------------------------------
  // The description|pattern structure

  /** The fields of s between separators, as the dialog reads the filter. */
  function Split(s: string): (fields: seq<string>)
    ensures |fields| >= 1
  {
    if |s| == 0 then [[]]
    else
      var rest := Split(s[1..]);
      if s[0] == Separator then [[]] + rest else [[s[0]] + rest[0]] + rest[1..]
  }

  /** The number of separators in s. */
  function BarCount(s: string): nat {
    if |s| == 0 then 0 else (if s[0] == Separator then 1 else 0) + BarCount(s[1..])
  }

  lemma {:induction false} SplitNoSeparator(s: string)
    requires Separator !in s
    ensures Split(s) == [s]
  {
    if |s| > 0 {
      assert s[0] in s;
      assert forall c :: c in s[1..] ==> c in s;
      SplitNoSeparator(s[1..]);
      assert [s[0]] + s[1..] == s;
    }
  }

  /** Splitting at a separator splits each side on its own. */
  lemma {:induction false} SplitConcat(a: string, b: string)
    ensures Split(a + [Separator] + b) == Split(a) + Split(b)
  {
    var s := a + [Separator] + b;
    if |a| == 0 {
      assert s[1..] == b;
    } else {
      assert s[1..] == a[1..] + [Separator] + b;
      SplitConcat(a[1..], b);
    }
  }

  /** There is one more field than there are separators. */
  lemma {:induction false} SplitCount(s: string)
    ensures |Split(s)| == BarCount(s) + 1
  {
    if |s| > 0 {
      SplitCount(s[1..]);
    }
  }

  /** The fields the codecs contribute: each description followed by its pattern. */
  function Pieces(codecs: seq<Codec>): (ps: seq<string>)
    requires AllNamed(codecs)
    ensures |ps| == 2 * |codecs|
  {
    if |codecs| == 0 then []
    else
      var last := codecs[|codecs| - 1];
      Pieces(codecs[..|codecs| - 1]) + [Description(last), last.filenameExtension]
  }

  /** Fields alternate: description at each even position, its pattern after it. */
  lemma {:induction false} PiecesAlternate(codecs: seq<Codec>, i: nat)
    requires AllNamed(codecs) && i < |codecs|
    ensures Pieces(codecs)[2 * i] == Description(codecs[i])
    ensures Pieces(codecs)[2 * i + 1] == codecs[i].filenameExtension
    decreases |codecs|
  {
    var init := codecs[..|codecs| - 1];
    if i < |codecs| - 1 {
      assert init[i] == codecs[i];
      assert AllNamed(init) by {
        forall j | 0 <= j < |init|
          ensures |init[j].codecName| >= 8
        {
          assert init[j] == codecs[j];
        }
      }
      PiecesAlternate(init, i);
    }
  }

  /** Neither a codec name nor an extension contains the separator. */
  predicate NoSeparators(codecs: seq<Codec>) {
    forall i :: 0 <= i < |codecs| ==>
      Separator !in codecs[i].codecName && Separator !in codecs[i].filenameExtension
  }

  lemma DescriptionHasNoSeparator(c: Codec)
    requires |c.codecName| >= 8
    requires Separator !in c.codecName && Separator !in c.filenameExtension
    ensures Separator !in Description(c)
  {
    var tail := c.codecName[8..];
    assert forall k :: 0 <= k < |tail| ==> tail[k] == c.codecName[8 + k];
    ReplaceAllKeepsOut(tail, "Codec", "Files", Separator);
    TrimKeepsOut(ReplaceAll(tail, "Codec", "Files"), Separator);
  }

  /** Dropping the last codec keeps both conditions. */
  lemma InitKeepsNames(codecs: seq<Codec>)
    requires |codecs| > 0 && AllNamed(codecs) && NoSeparators(codecs)
    ensures AllNamed(codecs[..|codecs| - 1]) && NoSeparators(codecs[..|codecs| - 1])
  {
    var init := codecs[..|codecs| - 1];
    forall j | 0 <= j < |init|
      ensures |init[j].codecName| >= 8
      ensures Separator !in init[j].codecName && Separator !in init[j].filenameExtension
    {
      assert init[j] == codecs[j];
    }
  }

  /** Splitting undoes joining, when no piece holds the separator. */
  lemma {:induction false} SplitJoin(pieces: seq<string>)
    requires |pieces| > 0
    requires forall i :: 0 <= i < |pieces| ==> Separator !in pieces[i]
    ensures Split(Join(pieces)) == pieces
    decreases |pieces|
  {
    var n := |pieces|;
    SplitNoSeparator(pieces[n - 1]);
    if n > 1 {
      var init := pieces[..n - 1];
      assert forall i :: 0 <= i < |init| ==> init[i] == pieces[i];
      SplitJoin(init);
      SplitConcat(Join(init), pieces[n - 1]);
      assert init + [pieces[n - 1]] == pieces;
    }
  }

  /** A codec's own pair splits into its description and its pattern. */
  lemma SplitEntry(c: Codec)
    requires |c.codecName| >= 8
    requires Separator !in c.codecName && Separator !in c.filenameExtension
    ensures Split(Entry(c)) == [Description(c), c.filenameExtension]
  {
    DescriptionHasNoSeparator(c);
    SplitPair(Description(c), c.filenameExtension);
  }

  /** The joined codec pairs split into exactly the codec fields. */
  lemma {:induction false} SplitEntries(codecs: seq<Codec>)
    requires |codecs| > 0 && AllNamed(codecs) && NoSeparators(codecs)
    ensures Split(Join(Entries(codecs))) == Pieces(codecs)
    decreases |codecs|
  {
    var n := |codecs|;
    var init := codecs[..n - 1];
    var last := codecs[n - 1];
    InitKeepsNames(codecs);
    SplitEntry(last);
    var es := Entries(codecs);
    assert es[..n - 1] == Entries(init);
    if n > 1 {
      SplitEntries(init);
      SplitConcat(Join(Entries(init)), Entry(last));
    }
  }

  /**
   * With no separator inside names or extensions, the filter's fields are
   * the "All Files" pair, each codec's pair in input order, and the ICO pair.
   */
  lemma FilterFields(codecs: seq<Codec>)
    requires AllNamed(codecs) && NoSeparators(codecs)
    ensures Split(FilterOf(codecs).value)
         == [AllFilesDescription, AllFilesPattern] + Pieces(codecs) + [IcoDescription, IcoPattern]
  {
    var joined, sep := Join(Entries(codecs)), if |codecs| > 0 then [Separator] else [];
    var middle := joined + sep + Tail;
    ConcatAssoc(Head, joined, sep, Tail);
    SplitMiddle(codecs);
    FieldsAfterHead(middle, Pieces(codecs));
  }

  /** The fields after the "All Files" pair are the fields of what follows it. */
  lemma FieldsAfterHead(middle: string, pieces: seq<string>)
    requires Split(middle) == pieces + [IcoDescription, IcoPattern]
    ensures Split(Head + middle) == [AllFilesDescription, AllFilesPattern] + pieces + [IcoDescription, IcoPattern]
  {
    SplitAfterHead(middle);
  }

  /** Two separator-free fields, then the rest. */
  lemma SplitTwoFields(a: string, b: string, rest: string)
    requires Separator !in a && Separator !in b
    ensures Split(a + [Separator] + b + [Separator] + rest) == [a, b] + Split(rest)
  {
    var tail := b + [Separator] + rest;
    assert a + [Separator] + b + [Separator] + rest == a + [Separator] + tail;
    SplitConcat(a, tail);
    SplitNoSeparator(a);
    SplitFirstField(b, rest);
    assert [a] + ([b] + Split(rest)) == [a, b] + Split(rest);
  }

  /** One separator-free field, then the rest. */
  lemma SplitFirstField(a: string, rest: string)
    requires Separator !in a
    ensures Split(a + [Separator] + rest) == [a] + Split(rest)
  {
    SplitConcat(a, rest);
    SplitNoSeparator(a);
  }

  /** Two separator-free fields and nothing else. */
  lemma SplitPair(a: string, b: string)
    requires Separator !in a && Separator !in b
    ensures Split(a + [Separator] + b) == [a, b]
  {
    SplitFirstField(a, b);
    SplitNoSeparator(b);
  }

  /** The "All Files" pair comes off the front as two fields. */
  lemma SplitAfterHead(rest: string)
    ensures Split(Head + rest) == [AllFilesDescription, AllFilesPattern] + Split(rest)
  {
    SplitTwoFields(AllFilesDescription, AllFilesPattern, rest);
  }

  lemma SplitTail()
    ensures Split(Tail) == [IcoDescription, IcoPattern]
  {
    SplitPair(IcoDescription, IcoPattern);
  }

  lemma SplitMiddle(codecs: seq<Codec>)
    requires AllNamed(codecs) && NoSeparators(codecs)
    ensures Split(Join(Entries(codecs)) + (if |codecs| > 0 then [Separator] else []) + Tail)
         == Pieces(codecs) + [IcoDescription, IcoPattern]
  {
    SplitTail();
    if |codecs| == 0 {
      assert Join(Entries(codecs)) + [] + Tail == Tail;
    } else {
      SplitEntries(codecs);
      SplitConcat(Join(Entries(codecs)), Tail);
    }
  }

  /** So the filter holds exactly 2n + 3 separators: n + 2 description|pattern pairs. */
  lemma FilterBarCount(codecs: seq<Codec>)
    requires AllNamed(codecs) && NoSeparators(codecs)
    ensures BarCount(FilterOf(codecs).value) == 2 * |codecs| + 3
  {
    FilterFields(codecs);
    SplitCount(FilterOf(codecs).value);
  }

  /** The filter always opens with the "All Files" pair and closes with the ICO pair. */
  lemma FilterFrame(codecs: seq<Codec>)
    requires AllNamed(codecs)
    ensures var v := FilterOf(codecs).value;
            |v| >= |Head| + |Tail| && v[..|Head|] == Head && v[|v| - |Tail|..] == Tail
  {
  }

  /** Without codecs the filter is the two fixed pairs alone. */
  lemma FilterOfNoCodecs()
    ensures FilterOf([]) == Success("All Files (*.*)|*.*|ICO Files (*.ICO)|*.ico")
  {
    var none: seq<Codec> := [];
    assert Entries(none) == [];
    assert Head + Join(Entries(none)) + [] + Tail == "All Files (*.*)|*.*|ICO Files (*.ICO)|*.ico";
  }
}
