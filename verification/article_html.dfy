/** `save_article_html.py`: the file-name sanitiser and the inline styling of
    the rendered article body. The Markdown conversion, `preprocess_markdown`
    and the file writes are not part of this model. */
module ArticleHtml {
  import opened Text

  /** The nine characters `sanitize_filename` deletes: backslash, slash, star,
      question mark, colon, double quote, angle brackets and bar. */
  const Forbidden: set<char> := {'\\', '/', '*', '?', ':', '"', '<', '>', '|'}

  /** `s` with every character of `bad` deleted and the others kept in order:
      none of `bad` is left, and a text without them is returned as it is. */
  function Remove(s: string, bad: set<char>): (r: string)
    ensures |r| <= |s|
    ensures forall k :: 0 <= k < |r| ==> r[k] !in bad
    ensures (forall k :: 0 <= k < |s| ==> s[k] !in bad) ==> r == s
  {
    if s == [] then []
    else
      assert forall k :: 0 <= k < |s[1..]| ==> s[1..][k] == s[k + 1];
      assert [s[0]] + s[1..] == s;
      (if s[0] in bad then [] else [s[0]]) + Remove(s[1..], bad)
  }

  /** `sanitize_filename`: delete the forbidden characters, strip, then turn
      every space into `_`. */
  function SanitizeFilename(name: string): string
  {
    ReplaceChar(Strip(Remove(name, Forbidden)), ' ', '_')
  }

  /** `Remove` works piece by piece, so the kept characters keep their order. */
  lemma {:induction false} RemoveDistributes(a: string, b: string, bad: set<char>)
    ensures Remove(a + b, bad) == Remove(a, bad) + Remove(b, bad)
  {
    if a == [] {
      assert a + b == b;
    } else {
      var s := a + b;
      assert s[0] == a[0] && s[1..] == a[1..] + b;
      RemoveStep(s, bad);
      RemoveStep(a, bad);
      RemoveDistributes(a[1..], b, bad);
      var head := if a[0] in bad then [] else [a[0]];
      assert head + (Remove(a[1..], bad) + Remove(b, bad)) == (head + Remove(a[1..], bad)) + Remove(b, bad);
    }
  }

  lemma RemoveStep(s: string, bad: set<char>)
    requires s != []
    ensures Remove(s, bad) == (if s[0] in bad then [] else [s[0]]) + Remove(s[1..], bad)
  {
  }

  /** A sanitised name holds no forbidden character and no space, and neither
      starts nor ends with whitespace. */
  lemma SanitizedIsClean(name: string)
    ensures forall k :: 0 <= k < |SanitizeFilename(name)| ==>
              SanitizeFilename(name)[k] !in Forbidden && SanitizeFilename(name)[k] != ' '
    ensures SanitizeFilename(name) == [] ||
              (!IsSpace(SanitizeFilename(name)[0]) && !IsSpace(SanitizeFilename(name)[|SanitizeFilename(name)| - 1]))
  {
    var x := Remove(name, Forbidden);
    StripKeepsAbsent(x, Forbidden);
    StripIsMiddle(x);
  }

  /** `strip()` only cuts characters off, so it adds none of `bad`. */
  lemma StripKeepsAbsent(x: string, bad: set<char>)
    requires forall k :: 0 <= k < |x| ==> x[k] !in bad
    ensures forall k :: 0 <= k < |Strip(x)| ==> Strip(x)[k] !in bad
  {
    var left := StripLeft(x);
    var t := StripRight(left);
    StripLeftCutsSpaces(x);
    StripRightCutsSpaces(left);
    forall k | 0 <= k < |t| ensures t[k] !in bad {
      assert t[k] == left[k] == x[|x| - |left| + k];
    }
  }

  /** Sanitising a sanitised name changes nothing. */
  lemma SanitizeIdempotent(name: string)
    ensures SanitizeFilename(SanitizeFilename(name)) == SanitizeFilename(name)
  {
    var r := SanitizeFilename(name);
    SanitizedIsClean(name);
    if r != [] {
      StripKeepsTrimmed(r);
    }
    assert ReplaceChar(r, ' ', '_') == r;
  }

  const WrapperStyle := "font-family: 'Microsoft YaHei', sans-serif; line-height: 1.8; padding: 0 16px; margin: 0 auto; max-width: 800px;"
  /** The element styles, one declaration per piece. */
  const H3Style := "margin-top: 24px; " + "margin-bottom: 16px; " + "font-size: 20px; " + "color: #800000; "
                   + "padding-left: 0px; " + "font-weight: bold;"
  const PStyle := "margin-top: 0; " + "margin-bottom: 16px; " + "color: #555;"
  const BlockquoteStyle := "border-left: 4px solid #ddd; " + "padding-left: 15px; " + "color: #666; " + "margin: 15px 0;"

  /** The opening tag `<tag style="style">`. */
  function StyledOpen(tag: string, style: string): string
  {
    "<" + tag + " style=\"" + style + "\">"
  }

  /** The three `str.replace` calls of `add_inline_styles`, in source order. */
  function Restyle(body: string): string
  {
    ReplaceAll(ReplaceAll(ReplaceAll(body, "<h3>", StyledOpen("h3", H3Style)),
                          "<p>", StyledOpen("p", PStyle)),
               "<blockquote>", StyledOpen("blockquote", BlockquoteStyle))
  }

  /** `add_inline_styles`: the restyled body inside the wrapper `div`. */
  function AddInlineStyles(html: string): string
  {
    StyledOpen("div", WrapperStyle) + "\n" + Restyle(html) + "\n</div>"
  }

  /** The same three replacements, with the styled tags as parameters. */
  function Passes(s: string, h3: string, p: string, bq: string): string
  {
    ReplaceAll(ReplaceAll(ReplaceAll(s, "<h3>", h3), "<p>", p), "<blockquote>", bq)
  }

  /** The reference: one left-to-right pass that replaces each bare `<h3>`,
      `<p>` and `<blockquote>` where it stands and copies every other
      character, so tags with attributes and closing tags stay as they are. */
  function StyleTags(s: string, h3: string, p: string, bq: string): string
    decreases |s|
  {
    if s == [] then []
    else if StartsWith(s, "<h3>") then h3 + StyleTags(s[4..], h3, p, bq)
    else if StartsWith(s, "<p>") then p + StyleTags(s[3..], h3, p, bq)
    else if StartsWith(s, "<blockquote>") then bq + StyleTags(s[12..], h3, p, bq)
    else [s[0]] + StyleTags(s[1..], h3, p, bq)
  }

  /** A styled opening tag: `<`, then `c`, then no further `<`. */
  predicate OpensWith(r: string, c: char)
  {
    |r| >= 2 && r[0] == '<' && r[1] == c && '<' !in r[2..]
  }

  /** No style string holds a `<`, so no inserted tag contains another tag. */
  lemma H3StyleHasNoTag()
    ensures '<' !in H3Style
  {
  }

  lemma PStyleHasNoTag()
    ensures '<' !in PStyle
  {
  }

  lemma BlockquoteStyleHasNoTag()
    ensures '<' !in BlockquoteStyle
  {
  }

  lemma StyledOpenShape(tag: string, style: string)
    requires tag != [] && tag[0] != '<' && '<' !in tag && '<' !in style
    ensures OpensWith(StyledOpen(tag, style), tag[0])
  {
    var r := StyledOpen(tag, style);
    assert r[2..] == tag[1..] + " style=\"" + style + "\">";
  }

  /** The three replacements in a row do what the one-pass reference does:
      no replacement creates or hides a tag that a later one acts on. */
  lemma RestyleIsOnePass(body: string)
    ensures Restyle(body) == StyleTags(body, StyledOpen("h3", H3Style), StyledOpen("p", PStyle),
                                       StyledOpen("blockquote", BlockquoteStyle))
  {
    H3StyleHasNoTag();
    PStyleHasNoTag();
    BlockquoteStyleHasNoTag();
    StyledOpenShape("h3", H3Style);
    StyledOpenShape("p", PStyle);
    StyledOpenShape("blockquote", BlockquoteStyle);
    PassesAreOnePass(body, StyledOpen("h3", H3Style), StyledOpen("p", PStyle),
                     StyledOpen("blockquote", BlockquoteStyle));
  }

  /** A body without any of the three bare tags is only wrapped. */
  lemma UntaggedBodyOnlyWrapped(html: string)
    requires !Occurs(html, "<h3>") && !Occurs(html, "<p>") && !Occurs(html, "<blockquote>")
    ensures AddInlineStyles(html) == StyledOpen("div", WrapperStyle) + "\n" + html + "\n</div>"
  {
  }

  /** For styled tags of the right shape, the three passes equal the reference. */
  lemma {:induction false} PassesAreOnePass(s: string, h3: string, p: string, bq: string)
    requires OpensWith(h3, 'h') && OpensWith(p, 'p') && OpensWith(bq, 'b')
    ensures Passes(s, h3, p, bq) == StyleTags(s, h3, p, bq)
    decreases |s|
  {
    if s == [] {
    } else if StartsWith(s, "<h3>") {
      H3First(s, h3, p, bq);
      PassesAreOnePass(s[4..], h3, p, bq);
    } else if StartsWith(s, "<p>") {
      PFirst(s, h3, p, bq);
      PassesAreOnePass(s[3..], h3, p, bq);
    } else if StartsWith(s, "<blockquote>") {
      BlockquoteFirst(s, h3, p, bq);
      PassesAreOnePass(s[12..], h3, p, bq);
    } else {
      OtherFirst(s, h3, p, bq);
      PassesAreOnePass(s[1..], h3, p, bq);
    }
  }

  lemma H3First(s: string, h3: string, p: string, bq: string)
    requires OpensWith(h3, 'h') && OpensWith(p, 'p') && OpensWith(bq, 'b')
    requires StartsWith(s, "<h3>")
    ensures Passes(s, h3, p, bq) == h3 + Passes(s[4..], h3, p, bq)
  {
    ReplaceHit(s, "<h3>", h3);
    H3SkipsLaterPasses(h3, ReplaceAll(s[4..], "<h3>", h3), p, bq);
  }

  /** A styled `<h3>` tag passes through the `<p>` and `<blockquote>` replacements
      that follow it. */
  lemma H3SkipsLaterPasses(h3: string, y: string, p: string, bq: string)
    requires OpensWith(h3, 'h')
    ensures ReplaceAll(ReplaceAll(h3 + y, "<p>", p), "<blockquote>", bq)
            == h3 + ReplaceAll(ReplaceAll(y, "<p>", p), "<blockquote>", bq)
  {
    SkipStyled(h3, 'h', y, "<p>", p);
    SkipStyled(h3, 'h', ReplaceAll(y, "<p>", p), "<blockquote>", bq);
  }

  lemma PFirst(s: string, h3: string, p: string, bq: string)
    requires OpensWith(h3, 'h') && OpensWith(p, 'p') && OpensWith(bq, 'b')
    requires StartsWith(s, "<p>")
    ensures Passes(s, h3, p, bq) == p + Passes(s[3..], h3, p, bq)
  {
    PKeptByH3(s, h3);
    var y1 := ReplaceAll(s[3..], "<h3>", h3);
    PStyled(y1, p);
    var y2 := ReplaceAll(y1, "<p>", p);
    SkipStyled(p, 'p', y2, "<blockquote>", bq);
  }

  lemma PKeptByH3(s: string, h3: string)
    requires StartsWith(s, "<p>")
    ensures ReplaceAll(s, "<h3>", h3) == "<p>" + ReplaceAll(s[3..], "<h3>", h3)
  {
    assert s == "<p>" + s[3..];
    ReplaceSkipTag("<p>", s[3..], "<h3>", h3);
  }

  lemma PStyled(y: string, p: string)
    ensures ReplaceAll("<p>" + y, "<p>", p) == p + ReplaceAll(y, "<p>", p)
  {
    ReplaceHit("<p>" + y, "<p>", p);
    assert ("<p>" + y)[3..] == y;
  }

  lemma BlockquoteFirst(s: string, h3: string, p: string, bq: string)
    requires OpensWith(h3, 'h') && OpensWith(p, 'p') && OpensWith(bq, 'b')
    requires StartsWith(s, "<blockquote>")
    ensures Passes(s, h3, p, bq) == bq + Passes(s[12..], h3, p, bq)
  {
    assert s == "<blockquote>" + s[12..];
    ReplaceSkipTag("<blockquote>", s[12..], "<h3>", h3);
    var y1 := ReplaceAll(s[12..], "<h3>", h3);
    ReplaceSkipTag("<blockquote>", y1, "<p>", p);
    var y2 := ReplaceAll(y1, "<p>", p);
    ReplaceHit("<blockquote>" + y2, "<blockquote>", bq);
    assert ("<blockquote>" + y2)[12..] == y2;
  }

  lemma OtherFirst(s: string, h3: string, p: string, bq: string)
    requires OpensWith(h3, 'h') && OpensWith(p, 'p') && OpensWith(bq, 'b')
    requires s != [] && !StartsWith(s, "<h3>") && !StartsWith(s, "<p>") && !StartsWith(s, "<blockquote>")
    ensures Passes(s, h3, p, bq) == [s[0]] + Passes(s[1..], h3, p, bq)
  {
    ReplaceStep(s, "<h3>", h3);
    var y1 := ReplaceAll(s[1..], "<h3>", h3);
    if StartsWith([s[0]] + y1, "<p>") {
      UnCons(s[0], y1, "<p>");
      ReplaceKeepsPlainStart(s[1..], "p>", "<h3>", h3);
      ReCons(s, "<p>");
    }
    ReplaceStep([s[0]] + y1, "<p>", p);
    assert ([s[0]] + y1)[1..] == y1;
    var y2 := ReplaceAll(y1, "<p>", p);
    if StartsWith([s[0]] + y2, "<blockquote>") {
      UnCons(s[0], y2, "<blockquote>");
      ReplaceKeepsPlainStart(y1, "blockquote>", "<p>", p);
      ReplaceKeepsPlainStart(s[1..], "blockquote>", "<h3>", h3);
      ReCons(s, "<blockquote>");
    }
    ReplaceStep([s[0]] + y2, "<blockquote>", bq);
    assert ([s[0]] + y2)[1..] == y2;
  }

  lemma UnCons(c: char, y: string, w: string)
    requires w != [] && StartsWith([c] + y, w)
    ensures c == w[0] && StartsWith(y, w[1..])
  {
    assert ([c] + y)[1..|w|] == y[..|w| - 1];
    assert w[1..] == w[..|w|][1..];
  }

  lemma ReCons(s: string, w: string)
    requires s != [] && w != [] && s[0] == w[0] && StartsWith(s[1..], w[1..])
    ensures StartsWith(s, w)
  {
    assert s[..|w|] == [s[0]] + s[1..][..|w| - 1];
    assert w == [w[0]] + w[1..];
  }

  /** `ReplaceAll` copies a first character that does not start the pattern. */
  lemma ReplaceStep(s: string, pat: string, r: string)
    requires pat != [] && s != [] && !StartsWith(s, pat)
    ensures ReplaceAll(s, pat, r) == [s[0]] + ReplaceAll(s[1..], pat, r)
  {
    if |s| < |pat| {
      assert [s[0]] + s[1..] == s;
    }
  }

  /** `ReplaceAll` replaces an occurrence at the start. */
  lemma ReplaceHit(s: string, pat: string, r: string)
    requires pat != [] && StartsWith(s, pat)
    ensures ReplaceAll(s, pat, r) == r + ReplaceAll(s[|pat|..], pat, r)
  {
  }

  /** Text without the pattern's first character passes through unchanged. */
  lemma {:induction false} ReplaceSkip(t: string, y: string, pat: string, r: string)
    requires pat != [] && pat[0] !in t
    ensures ReplaceAll(t + y, pat, r) == t + ReplaceAll(y, pat, r)
  {
    if t == [] {
      assert t + y == y;
    } else {
      var s := t + y;
      assert s[0] == t[0] && s[1..] == t[1..] + y;
      ReplaceStep(s, pat, r);
      ReplaceSkip(t[1..], y, pat, r);
      assert [t[0]] + (t[1..] + ReplaceAll(y, pat, r)) == ([t[0]] + t[1..]) + ReplaceAll(y, pat, r);
      assert [t[0]] + t[1..] == t;
    }
  }

  /** A tag whose second character differs from the pattern's, and with no
      further `<`, passes through unchanged. */
  lemma ReplaceSkipTag(t: string, y: string, pat: string, r: string)
    requires |pat| >= 2 && |t| >= 2 && t[0] == pat[0] && t[1] != pat[1] && t[1] != pat[0] && pat[0] !in t[2..]
    ensures ReplaceAll(t + y, pat, r) == t + ReplaceAll(y, pat, r)
  {
    assert t[1..] == [t[1]] + t[2..];
    var s := t + y;
    assert s[0] == t[0] && s[1..] == t[1..] + y;
    assert s[1] == t[1];
    ReplaceStep(s, pat, r);
    ReplaceSkip(t[1..], y, pat, r);
    assert [t[0]] + (t[1..] + ReplaceAll(y, pat, r)) == ([t[0]] + t[1..]) + ReplaceAll(y, pat, r);
    assert [t[0]] + t[1..] == t;
  }

  /** A styled opening tag passes through a later replacement of a tag it
      does not start like. */
  lemma SkipStyled(t: string, c: char, y: string, pat: string, r: string)
    requires OpensWith(t, c) && c != '<'
    requires |pat| >= 2 && pat[0] == '<' && pat[1] != c
    ensures ReplaceAll(t + y, pat, r) == t + ReplaceAll(y, pat, r)
  {
    ReplaceSkipTag(t, y, pat, r);
  }

  /** When the replacement starts like the pattern, a replaced text starting
      with characters that do not include that first character starts with
      them before the replacement too. */
  lemma {:induction false} ReplaceKeepsPlainStart(y: string, w: string, pat: string, r: string)
    requires pat != [] && r != [] && r[0] == pat[0] && pat[0] !in w
    requires StartsWith(ReplaceAll(y, pat, r), w)
    ensures StartsWith(y, w)
  {
    if w != [] {
      var out := ReplaceAll(y, pat, r);
      assert out[0] == w[0];
      if y == [] {
        assert out == [];
      } else if StartsWith(y, pat) {
        ReplaceHit(y, pat, r);
        assert false;
      } else {
        ReplaceStep(y, pat, r);
        UnCons(y[0], ReplaceAll(y[1..], pat, r), w);
        ReplaceKeepsPlainStart(y[1..], w[1..], pat, r);
        ReCons(y, w);
      }
    }
  }
}
