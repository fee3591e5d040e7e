/** `inject_images.py`: every `《…》` placeholder of the article text whose
    number names an uploaded content image becomes an `<img>` tag; every other
    character of the text is kept. `re.sub(r"《(.*?)》", ...)` is written out as
    a left-to-right scan, and `re.search(r'\d+', ...)` as a search for the first
    run of ASCII digits. */
module Inject {
  import opened Wrappers
  import opened Text
  import opened ArticleData

  /** Where the lazy `(.*?)》` after an opening `《` stops: the index in `t` of
      the first `》`, or `None` when a line break comes first or there is no
      `》` (`.` does not match `\n`). */
  function CloseIndex(t: string): (r: Option<nat>)
    ensures r.Some? ==> r.value < |t|
  {
    if t == [] then None
    else if t[0] == '》' then Some(0)
    else if t[0] == '\n' then None
    else match CloseIndex(t[1..])
      case None => None
      case Some(k) => Some(k + 1)
  }

  /** `CloseIndex` finds the first `》` exactly when no line break precedes it. */
  lemma {:induction false} CloseIndexMeaning(t: string)
    ensures CloseIndex(t).Some? ==>
              var k := CloseIndex(t).value;
              t[k] == '》' && '》' !in t[..k] && '\n' !in t[..k]
    ensures CloseIndex(t).None? ==>
              forall k :: 0 <= k < |t| && t[k] == '》' ==> '\n' in t[..k]
  {
    if t != [] && t[0] != '》' && t[0] != '\n' {
      CloseIndexMeaning(t[1..]);
      forall k | 1 <= k <= |t|
        ensures t[..k] == [t[0]] + t[1..][..k - 1]
      {
      }
    }
  }

  /** A text free of `》` and line breaks, followed by `》`, closes right there. */
  lemma {:induction false} CloseAfter(text: string, rest: string)
    requires '》' !in text && '\n' !in text
    ensures CloseIndex(text + ['》'] + rest) == Some(|text|)
  {
    if text != [] {
      CloseAfter(text[1..], rest);
      assert (text + ['》'] + rest)[1..] == text[1..] + ['》'] + rest;
    }
  }

  /** The digits `s` starts with, as many as there are. */
  function LeadingDigits(s: string): (r: string)
    ensures |r| <= |s|
  {
    if s != [] && IsDigit(s[0]) then [s[0]] + LeadingDigits(s[1..]) else []
  }

  /** What `re.search(r'\d+', s)` finds: the first maximal run of digits. */
  function FirstNumber(s: string): (r: Option<string>)
  {
    if s == [] then None
    else if IsDigit(s[0]) then Some(LeadingDigits(s))
    else FirstNumber(s[1..])
  }

  /** `LeadingDigits` is the longest all-digit prefix. */
  lemma {:induction false} LeadingDigitsMeaning(s: string)
    ensures LeadingDigits(s) == s[..|LeadingDigits(s)|]
    ensures forall k :: 0 <= k < |LeadingDigits(s)| ==> IsDigit(LeadingDigits(s)[k])
    ensures |LeadingDigits(s)| == |s| || !IsDigit(s[|LeadingDigits(s)|])
  {
    if s != [] && IsDigit(s[0]) {
      LeadingDigitsMeaning(s[1..]);
    }
  }

  /** A number printed without leading digits in front of it and without a digit
      after it is the number `FirstNumber` finds. */
  lemma {:induction false} FindsPrintedNumber(prefix: string, n: nat, suffix: string)
    requires forall k :: 0 <= k < |prefix| ==> !IsDigit(prefix[k])
    requires suffix == [] || !IsDigit(suffix[0])
    ensures FirstNumber(prefix + NatToString(n) + suffix) == Some(NatToString(n))
  {
    if prefix == [] {
      DigitsThenStop(NatToString(n), suffix);
      assert prefix + NatToString(n) + suffix == NatToString(n) + suffix;
    } else {
      FindsPrintedNumber(prefix[1..], n, suffix);
      assert (prefix + NatToString(n) + suffix)[1..] == prefix[1..] + NatToString(n) + suffix;
    }
  }

  lemma {:induction false} DigitsThenStop(d: string, suffix: string)
    requires forall k :: 0 <= k < |d| ==> IsDigit(d[k])
    requires suffix == [] || !IsDigit(suffix[0])
    ensures LeadingDigits(d + suffix) == d
  {
    if d != [] {
      DigitsThenStop(d[1..], suffix);
      assert (d + suffix)[1..] == d[1..] + suffix;
    }
  }

  /** `int(num_match.group(0)) - 1`: the 0-based image index a placeholder
      text names, `None` when it holds no digit. */
  function ImageIndex(text: string): (r: Option<int>)
  {
    match FirstNumber(text)
    case None => None
    case Some(digits) =>
      LeadingDigitsNumber(text);
      Some(DecimalValue(digits) - 1)
  }

  /** Whatever `FirstNumber` finds is a run of digits. */
  lemma {:induction false} LeadingDigitsNumber(s: string)
    ensures FirstNumber(s).Some? ==>
              forall k :: 0 <= k < |FirstNumber(s).value| ==> IsDigit(FirstNumber(s).value[k])
  {
    if s != [] {
      if IsDigit(s[0]) {
        LeadingDigitsMeaning(s);
      } else {
        LeadingDigitsNumber(s[1..]);
      }
    }
  }

  /** The placeholder itself, as it stands in the text. */
  function Placeholder(text: string): string
  {
    ['《'] + text + ['》']
  }

  /** `f'{url}'`: a `null` slot prints as `None`. */
  function Show(u: Option<string>): string
  {
    match u
    case Some(s) => s
    case None => "None"
  }

  /** The `<img>` tag a placeholder becomes, set apart by blank lines. */
  function ImageTag(u: Option<string>): string
  {
    "\n\n<img src=\"" + Show(u) + "\" />\n\n"
  }

  /** `replace_placeholder` applied to the match whose group 1 is `text`. */
  function ReplacePlaceholder(text: string, urls: seq<Option<string>>): string
  {
    match ImageIndex(text)
    case Some(i) => if 0 <= i < |urls| then ImageTag(urls[i]) else Placeholder(text)
    case None => Placeholder(text)
  }

  /** `re.sub(r"《(.*?)》", replace_placeholder, s)`. */
  function Substitute(s: string, urls: seq<Option<string>>): string
    decreases |s|
  {
    if s == [] then []
    else if s[0] == '《' then
      match CloseIndex(s[1..])
      case Some(k) => ReplacePlaceholder(s[1..k + 1], urls) + Substitute(s[k + 2..], urls)
      case None => [s[0]] + Substitute(s[1..], urls)
    else [s[0]] + Substitute(s[1..], urls)
  }

  /** `final_content`: `new_content` (empty when absent) with the placeholders
      replaced from `image_urls.content` (empty when either key is absent). */
  function InjectImages(newContent: Option<string>, imageUrls: Option<ImageUrls>): string
  {
    var content := if newContent.Some? then newContent.value else "";
    var urls := if imageUrls.Some? && imageUrls.value.content.Some? then imageUrls.value.content.value else [];
    Substitute(content, urls)
  }

  /** A placeholder is replaced, by the tag of the URL it names, exactly when
      its first number `n` satisfies `1 <= n <= |urls|`; otherwise it is kept
      as it stands (no digits, `0`, or past the last URL). */
  lemma ReplacedIffInRange(text: string, urls: seq<Option<string>>)
    ensures ReplacePlaceholder(text, urls) != Placeholder(text)
            <==> ImageIndex(text).Some? && 0 <= ImageIndex(text).value < |urls|
    ensures ImageIndex(text).Some? && 0 <= ImageIndex(text).value < |urls| ==>
              ReplacePlaceholder(text, urls) == ImageTag(urls[ImageIndex(text).value])
  {
    if ImageIndex(text).Some? && 0 <= ImageIndex(text).value < |urls| {
      assert ImageTag(urls[ImageIndex(text).value])[0] == '\n';
    }
  }

  /** Placeholders count from 1: a text such as `Image n` names slot `n - 1`. */
  lemma NumberedPlaceholder(prefix: string, n: nat, suffix: string, urls: seq<Option<string>>)
    requires forall k :: 0 <= k < |prefix| ==> !IsDigit(prefix[k])
    requires suffix == [] || !IsDigit(suffix[0])
    ensures ImageIndex(prefix + NatToString(n) + suffix) == Some(n - 1)
    ensures 1 <= n <= |urls| ==> ReplacePlaceholder(prefix + NatToString(n) + suffix, urls) == ImageTag(urls[n - 1])
  {
    FindsPrintedNumber(prefix, n, suffix);
    DecimalRoundTrip(n);
  }

  /** One placeholder, ending at the first `》` of a line, is replaced on its
      own and the scan resumes right after it. */
  lemma OnePlaceholder(text: string, rest: string, urls: seq<Option<string>>)
    requires '》' !in text && '\n' !in text
    ensures Substitute(Placeholder(text) + rest, urls) == ReplacePlaceholder(text, urls) + Substitute(rest, urls)
  {
    var s := Placeholder(text) + rest;
    assert s[1..] == text + ['》'] + rest;
    CloseAfter(text, rest);
    assert s[1..|text| + 1] == text;
    assert s[|text| + 2..] == rest;
  }

  /** Text before the first `《` comes out unchanged. */
  lemma {:induction false} PlainPrefixUnchanged(a: string, b: string, urls: seq<Option<string>>)
    requires '《' !in a
    ensures Substitute(a + b, urls) == a + Substitute(b, urls)
  {
    if a != [] {
      var s := a + b;
      assert s[0] == a[0] && s[1..] == a[1..] + b;
      PlainOrUnclosedStep(s, urls);
      PlainPrefixUnchanged(a[1..], b, urls);
      ConsAppend(a, Substitute(b, urls));
    } else {
      assert a + b == b;
    }
  }

  lemma ConsAppend(a: string, x: string)
    requires a != []
    ensures [a[0]] + (a[1..] + x) == a + x
  {
    assert [a[0]] + a[1..] == a;
  }

  /** A text without placeholders is left alone. */
  lemma NoPlaceholderUnchanged(s: string, urls: seq<Option<string>>)
    requires '《' !in s
    ensures Substitute(s, urls) == s
  {
    PlainPrefixUnchanged(s, [], urls);
    assert s + [] == s;
  }

  /** With no content URLs nothing is replaced, whatever the placeholders. */
  lemma {:induction false} NoUrlsUnchanged(s: string)
    ensures Substitute(s, []) == s
    decreases |s|
  {
    if s != [] {
      if s[0] == '《' && CloseIndex(s[1..]).Some? {
        var k := CloseIndex(s[1..]).value;
        PlaceholderStep(s, [], k);
        NoUrlsUnchanged(s[k + 2..]);
        CloseIndexMeaning(s[1..]);
        SplitAtClose(s, k);
      } else {
        PlainOrUnclosedStep(s, []);
        NoUrlsUnchanged(s[1..]);
        assert [s[0]] + s[1..] == s;
      }
    }
  }

  /** A `《` closed at `s[k + 1]` is handed to `replace_placeholder` as a whole. */
  lemma PlaceholderStep(s: string, urls: seq<Option<string>>, k: nat)
    requires k + 2 <= |s| && s[0] == '《' && CloseIndex(s[1..]) == Some(k)
    ensures Substitute(s, urls) == ReplacePlaceholder(s[1..k + 1], urls) + Substitute(s[k + 2..], urls)
  {
  }

  /** A character that opens no placeholder is copied. */
  lemma PlainOrUnclosedStep(s: string, urls: seq<Option<string>>)
    requires s != [] && (s[0] != '《' || CloseIndex(s[1..]).None?)
    ensures Substitute(s, urls) == [s[0]] + Substitute(s[1..], urls)
  {
  }

  lemma SplitAtClose(s: string, k: nat)
    requires k + 2 <= |s| && s[0] == '《' && s[k + 1] == '》'
    ensures s == Placeholder(s[1..k + 1]) + s[k + 2..]
  {
    assert s[..k + 2] == Placeholder(s[1..k + 1]);
    assert s == s[..k + 2] + s[k + 2..];
  }

  /** `final_content` equals `new_content` when `image_urls` or its `content`
      list is missing. */
  lemma MissingUrlsUnchanged(newContent: string, imageUrls: Option<ImageUrls>)
    requires imageUrls.None? || imageUrls.value.content.None?
    ensures InjectImages(Some(newContent), imageUrls) == newContent
  {
    NoUrlsUnchanged(newContent);
  }
}
