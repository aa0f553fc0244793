/** The project modal's derived text: the heading made from a highlight key
    (`key.replace(/([A-Z])/g, ' $1').trim()`, camelCase into words) and the
    conditions under which the Features and Highlights blocks appear. */
module ProjectModal {
  import opened Wrappers

  /** The characters the regular expression `[A-Z]` matches. */
  predicate IsUpper(c: char) { 'A' <= c <= 'Z' }

  /** The characters `String.prototype.trim` removes, as far as this model
      covers them: ASCII white space, line terminators, no-break space and the
      byte-order mark. */
  predicate IsSpace(c: char)
  {
    c == ' ' || c == '\t' || c == '\n' || c == '\r' || c == '\U{0B}' || c == '\U{0C}'
    || c == '\U{A0}' || c == '\U{2028}' || c == '\U{2029}' || c == '\U{FEFF}'
  }

  function CountUpper(s: string): nat
  {
    if s == [] then 0 else (if IsUpper(s[0]) then 1 else 0) + CountUpper(s[1..])
  }

  /** The characters of `s` that are not white space, in order. */
  function Visible(s: string): string
  {
    if s == [] then [] else (if IsSpace(s[0]) then [] else [s[0]]) + Visible(s[1..])
  }

  /** `s.replace(/([A-Z])/g, ' $1')`: one space before every capital A to Z. */
  function SpaceBeforeCapitals(s: string): (r: string)
    ensures |r| == |s| + CountUpper(s)
    ensures forall i :: 0 <= i < |r| && IsUpper(r[i]) ==> 0 < i && r[i - 1] == ' '
  {
    if s == [] then []
    else
      var rest := SpaceBeforeCapitals(s[1..]);
      if IsUpper(s[0]) then
        var r := [' ', s[0]] + rest;
        assert forall i :: 2 <= i < |r| ==> r[i] == rest[i - 2];
        r
      else
        var r := [s[0]] + rest;
        assert forall i :: 1 <= i < |r| ==> r[i] == rest[i - 1];
        r
  }

  /** Removes one space in front of every capital: the inverse of the
      replacement above. */
  function DropSpaceBeforeCapitals(r: string): string
  {
    if |r| >= 2 && r[0] == ' ' && IsUpper(r[1]) then [r[1]] + DropSpaceBeforeCapitals(r[2..])
    else if r == [] then []
    else [r[0]] + DropSpaceBeforeCapitals(r[1..])
  }

  /** The replacement inserts the spaces and changes nothing else: removing
      them again gives back the key. */
  lemma {:induction false} SpacingRoundTrip(s: string)
    ensures DropSpaceBeforeCapitals(SpaceBeforeCapitals(s)) == s
  {
    if s != [] {
      var rest := SpaceBeforeCapitals(s[1..]);
      SpacingRoundTrip(s[1..]);
      if IsUpper(s[0]) {
        assert ([' ', s[0]] + rest)[2..] == rest;
      } else {
        var r := [s[0]] + rest;
        assert r[1..] == rest;
        assert |r| >= 2 ==> !IsUpper(r[1]) by {
          if |r| >= 2 {
            assert r[1] == rest[0];
          }
        }
      }
      assert s == [s[0]] + s[1..];
    }
  }

  /** Every character of `s` is white space. */
  predicate AllSpace(s: string)
  {
    forall i :: 0 <= i < |s| ==> IsSpace(s[i])
  }

  /** Drops the white space at the start: what is left is a suffix of `s`
      that is empty or starts with a visible character, and everything
      dropped is white space. */
  function TrimStart(s: string): (r: string)
    ensures |r| <= |s| && r == s[|s| - |r|..]
    ensures r == [] || !IsSpace(r[0])
    ensures AllSpace(s[..|s| - |r|])
  {
    if s != [] && IsSpace(s[0]) then TrimStart(s[1..]) else s
  }

  /** Drops the white space at the end, symmetrically. */
  function TrimEnd(s: string): (r: string)
    ensures |r| <= |s| && r == s[..|r|]
    ensures r == [] || !IsSpace(r[|r| - 1])
    ensures AllSpace(s[|r|..])
  {
    if s != [] && IsSpace(s[|s| - 1]) then TrimEnd(s[..|s| - 1]) else s
  }

  // ---------------------------------------------------------------------------
  // Properties of the heading

  lemma {:induction false} VisibleConcat(s: string, t: string)
    ensures Visible(s + t) == Visible(s) + Visible(t)
  {
    if s != [] {
      assert (s + t)[0] == s[0] && (s + t)[1..] == s[1..] + t;
      VisibleConcat(s[1..], t);
    } else {
      assert s + t == t;
    }
  }

  lemma {:induction false} VisibleOfSpaces(s: string)
    requires AllSpace(s)
    ensures Visible(s) == []
  {
    if s != [] {
      VisibleOfSpaces(s[1..]);
    }
  }

  /** Inserting the spaces adds no visible character. */
  lemma {:induction false} SpacingKeepsVisible(s: string)
    ensures Visible(SpaceBeforeCapitals(s)) == Visible(s)
  {
    if s != [] {
      SpacingKeepsVisible(s[1..]);
      var rest := SpaceBeforeCapitals(s[1..]);
      if IsUpper(s[0]) {
        VisibleConcat([' ', s[0]], rest);
        assert Visible([' ', s[0]]) == [s[0]] by {
          assert [' ', s[0]][1..] == [s[0]];
        }
      } else {
        VisibleConcat([s[0]], rest);
      }
      VisibleConcat([s[0]], s[1..]);
      assert s == [s[0]] + s[1..];
    }
  }

  /** White space added at either end adds no visible character. */
  lemma PaddingInvisible(pad: string, t: string)
    requires AllSpace(pad)
    ensures Visible(pad + t) == Visible(t)
    ensures Visible(t + pad) == Visible(t)
  {
    VisibleConcat(pad, t);
    VisibleConcat(t, pad);
    VisibleOfSpaces(pad);
  }

  lemma TrimStartKeepsVisible(s: string)
    ensures Visible(TrimStart(s)) == Visible(s)
  {
    var t := TrimStart(s);
    var pad := s[..|s| - |t|];
    assert s == pad + t;
    PaddingInvisible(pad, t);
  }

  lemma TrimEndKeepsVisible(s: string)
    ensures Visible(TrimEnd(s)) == Visible(s)
  {
    var r := TrimEnd(s);
    var pad := s[|r|..];
    assert s == r + pad;
    PaddingInvisible(pad, r);
  }

  /** `trim`: no white space is left at either end, and only white space is
      removed. */
  function Trim(s: string): (r: string)
    ensures r == [] || (!IsSpace(r[0]) && !IsSpace(r[|r| - 1]))
    ensures Visible(r) == Visible(s)
  {
    var t := TrimStart(s);
    TrimStartKeepsVisible(s);
    TrimEndKeepsVisible(t);
    var r := TrimEnd(t);
    assert r != [] ==> r[0] == t[0];
    r
  }

  /** The heading shown for a highlight key: it has exactly the key's visible
      characters, in the same order, and no white space at either end. */
  function FormatHeading(key: string): (h: string)
    ensures h == [] || (!IsSpace(h[0]) && !IsSpace(h[|h| - 1]))
    ensures Visible(h) == Visible(key)
  {
    SpacingKeepsVisible(key);
    Trim(SpaceBeforeCapitals(key))
  }

  /** `r` is the slice of `s` starting at `lead`, and everything of `s`
      before and after it is white space. */
  predicate PaddedSliceOf(s: string, lead: nat, r: string)
  {
    && lead + |r| <= |s| && r == s[lead..lead + |r|]
    && AllSpace(s[..lead]) && AllSpace(s[lead + |r|..])
  }

  /** A prefix `r` of a suffix `t` of `s`, where the parts of `s` before `t`
      and of `t` after `r` are white space, is a slice of `s` with only white
      space around it. */
  lemma PaddedSlice(s: string, t: string, r: string)
    requires |t| <= |s| && PaddedSliceOf(s, |s| - |t|, t)
    requires PaddedSliceOf(t, 0, r)
    ensures PaddedSliceOf(s, |s| - |t|, r)
  {
    assert s[|s| - |t| + |r|..] == t[|r|..];
  }

  /** `trim` keeps a contiguous slice of `s` and drops only the white space
      before and after it: nothing is removed from the middle. */
  lemma TrimMiddle(s: string)
    ensures PaddedSliceOf(s, |s| - |TrimStart(s)|, Trim(s))
  {
    var t := TrimStart(s);
    var r := TrimEnd(t);
    assert Trim(s) == r;
    assert PaddedSliceOf(s, |s| - |t|, t);
    assert PaddedSliceOf(t, 0, r);
    PaddedSlice(s, t, r);
  }

  /** `h` is `spaced` with white space taken away at both ends, `lead`
      characters of it in front, and `spaced` is `key` with one more
      character per capital; so `h` is as long as the key plus its capitals
      less what was trimmed. */
  predicate TrimmedFrom(key: string, spaced: string, lead: nat, h: string)
  {
    && PaddedSliceOf(spaced, lead, h)
    && |h| == |key| + CountUpper(key) - lead - |spaced[lead + |h|..]|
  }

  lemma PaddedLength(key: string, spaced: string, lead: nat, h: string)
    requires |spaced| == |key| + CountUpper(key)
    requires PaddedSliceOf(spaced, lead, h)
    ensures TrimmedFrom(key, spaced, lead, h)
  {
  }

  /** The heading is the spaced key less the white space at its two ends. */
  lemma HeadingLength(key: string)
    ensures TrimmedFrom(key, SpaceBeforeCapitals(key),
                        |SpaceBeforeCapitals(key)| - |TrimStart(SpaceBeforeCapitals(key))|, FormatHeading(key))
  {
    var spaced := SpaceBeforeCapitals(key);
    var h := FormatHeading(key);
    var lead := |spaced| - |TrimStart(spaced)|;
    assert PaddedSliceOf(spaced, lead, h) by {
      TrimMiddle(spaced);
    }
    PaddedLength(key, spaced, lead, h);
  }

  /** Every capital in the heading, except a leading one, follows a space. */
  lemma HeadingSeparatesWords(key: string)
    ensures var h := FormatHeading(key);
            forall i :: 0 < i < |h| && IsUpper(h[i]) ==> h[i - 1] == ' '
  {
    var spaced := SpaceBeforeCapitals(key);
    var t := TrimStart(spaced);
    var h := TrimEnd(t);
    var d := |spaced| - |t|;
    forall i | 0 < i < |h| && IsUpper(h[i])
      ensures h[i - 1] == ' '
    {
      assert h[i] == spaced[d + i] && h[i - 1] == spaced[d + i - 1];
    }
  }

  /** A key that starts with a capital gets no leading space: the heading
      starts with that capital. */
  lemma HeadingStartsWithLeadingCapital(key: string)
    requires |key| > 0 && IsUpper(key[0])
    ensures |FormatHeading(key)| > 0 && FormatHeading(key)[0] == key[0]
  {
    var spaced := SpaceBeforeCapitals(key);
    assert spaced[0] == ' ' && spaced[1] == key[0];
    assert spaced[1..][0] == key[0];
    var t := TrimStart(spaced);
    assert t == spaced[1..];
    var h := TrimEnd(t);
    assert !IsSpace(t[0]);
  }

  lemma {:induction false} NoCapitalsNoSpacing(s: string)
    requires CountUpper(s) == 0
    ensures SpaceBeforeCapitals(s) == s
  {
    if s != [] {
      NoCapitalsNoSpacing(s[1..]);
    }
  }

  /** A key without capitals and without white space at either end is
      shown as it is. */
  lemma HeadingKeepsPlainKey(key: string)
    requires CountUpper(key) == 0
    requires key == [] || (!IsSpace(key[0]) && !IsSpace(key[|key| - 1]))
    ensures FormatHeading(key) == key
  {
    NoCapitalsNoSpacing(key);
  }

  // ---------------------------------------------------------------------------
  // The optional blocks

  datatype Highlight = Highlight(heading: string, text: string)

  /** The Key Features list: shown only for a present, non-empty list, with
      the features as they are. */
  function FeaturesBlock(features: Option<seq<string>>): (block: Option<seq<string>>)
    ensures block.Some? <==> features.Some? && |features.value| > 0
    ensures block.Some? ==> block.value == features.value
  {
    if features.Some? && |features.value| > 0 then features else None
  }

  /** The Technical Highlights list: shown only when the record has at least
      one entry, one heading per entry in entry order. */
  function HighlightsBlock(highlights: Option<seq<(string, string)>>): (block: Option<seq<Highlight>>)
    ensures block.Some? <==> highlights.Some? && |highlights.value| > 0
    ensures block.Some? ==> |block.value| == |highlights.value|
    ensures block.Some? ==> forall i :: 0 <= i < |block.value| ==>
              block.value[i] == Highlight(FormatHeading(highlights.value[i].0), highlights.value[i].1)
  {
    if highlights.Some? && |highlights.value| > 0 then
      var entries := highlights.value;
      Some(seq(|entries|, i requires 0 <= i < |entries| => Highlight(FormatHeading(entries[i].0), entries[i].1)))
    else None
  }
}
