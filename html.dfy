/** The text side of page instrumentation: which responses count as HTML and how the
    browser-timing snippets are spliced into a page body at its <head> and </body> tags. */
module Html {
  import opened Wrappers

  const HeadTag: string := "<head>"
  const BodyEndTag: string := "</body>"
  const HtmlMediaType: string := "text/html"

  /** `prefix` is an initial segment of `s`. */
  predicate StartsWith(s: string, prefix: string) {
    |prefix| <= |s| && forall k :: 0 <= k < |prefix| ==> s[k] == prefix[k]
  }

  /** The content-type gate: the header value begins with `text/html`, so a bare
      `text/html` and one followed by a parameter such as `; charset=UTF-8` both pass. */
  predicate IsHtml(contentType: string) {
    StartsWith(contentType, HtmlMediaType)
  }

  /** `pat` occurs in `s` starting at index `i`. */
  predicate OccursAt(s: string, pat: string, i: int) {
    0 <= i && i + |pat| <= |s| && s[i..i + |pat|] == pat
  }

  predicate Occurs(s: string, pat: string) {
    exists i :: 0 <= i <= |s| - |pat| && OccursAt(s, pat, i)
  }

  /** Left-to-right, non-overlapping replacement of every occurrence of `pat` by `rep`;
      the scan resumes after each replaced occurrence, so text inserted by `rep` is never
      itself rescanned. */
  function ReplaceAll(s: string, pat: string, rep: string): string
    requires pat != []
    decreases |s|
  {
    if |s| < |pat| then s
    else if OccursAt(s, pat, 0) then rep + ReplaceAll(s[|pat|..], pat, rep)
    else [s[0]] + ReplaceAll(s[1..], pat, rep)
  }

  /** The timing header goes immediately after every `<head>`. */
  function InjectHeader(body: string, header: string): string {
    ReplaceAll(body, HeadTag, HeadTag + header)
  }

  /** The timing footer goes immediately before every `</body>`. */
  function InjectFooter(body: string, footer: string): string {
    ReplaceAll(body, BodyEndTag, footer + BodyEndTag)
  }

  /** The body after the header pass and then the footer pass; `None` stands for a pass
      that is suppressed because the template already emitted that snippet. */
  function Inject(body: string, header: Option<string>, footer: Option<string>): string {
    var withHeader := if header.Some? then InjectHeader(body, header.value) else body;
    if footer.Some? then InjectFooter(withHeader, footer.value) else withHeader
  }

  // ---------------------------------------------------------------------------
  // Properties of ReplaceAll

  lemma OccursShift(s: string, pat: string, j: int)
    requires |s| >= 1 && OccursAt(s[1..], pat, j)
    ensures OccursAt(s, pat, j + 1)
  {
    assert s[1..][j..j + |pat|] == s[j + 1..j + 1 + |pat|];
  }

  /** Dropping the first character cannot create an occurrence. */
  lemma AbsentInTail(s: string, pat: string)
    requires |s| >= 1 && !Occurs(s, pat)
    ensures !Occurs(s[1..], pat)
  {
    forall j | 0 <= j <= |s[1..]| - |pat| ensures !OccursAt(s[1..], pat, j) {
      assert s[1..][j..j + |pat|] == s[j + 1..j + 1 + |pat|];
      assert !OccursAt(s, pat, j + 1);
    }
  }

  /** A body without the tag is left exactly as it was. */
  lemma {:induction false} ReplaceAllAbsent(s: string, pat: string, rep: string)
    requires pat != [] && !Occurs(s, pat)
    ensures ReplaceAll(s, pat, rep) == s
    decreases |s|
  {
    if |s| >= |pat| {
      assert !OccursAt(s, pat, 0);
      AbsentInTail(s, pat);
      ReplaceAllAbsent(s[1..], pat, rep);
    }
  }

  /** Where the tag does not start the body, its first character is copied. */
  lemma ReplaceAllSkip(s: string, pat: string, rep: string)
    requires pat != [] && |s| >= |pat| && !OccursAt(s, pat, 0)
    ensures ReplaceAll(s, pat, rep) == [s[0]] + ReplaceAll(s[1..], pat, rep)
  {
  }

  lemma Assoc(a: string, b: string, c: string)
    ensures a + (b + c) == a + b + c
  {
  }

  /** Where the tag does not start at `k`, the scan from `k` copies that character. */
  lemma CopyStep(s: string, pat: string, rep: string, k: int)
    requires pat != [] && 0 <= k && k + |pat| <= |s| && !OccursAt(s, pat, k)
    ensures ReplaceAll(s[k..], pat, rep) == [s[k]] + ReplaceAll(s[k + 1..], pat, rep)
  {
    var u := s[k..];
    assert !OccursAt(u, pat, 0) by { assert u[0..|pat|] == s[k..k + |pat|]; }
    ReplaceAllSkip(u, pat, rep);
    assert u[1..] == s[k + 1..];
  }

  lemma JoinCopied(p: string, c: char, q: string, x: string, whole: string)
    requires whole == p + ([c] + x) && p + [c] == q
    ensures whole == q + x
  {
    Assoc(p, [c], x);
  }

  /** Before the first occurrence of the tag the text is copied as it is. */
  lemma {:induction false} ReplaceAllCopy(s: string, pat: string, rep: string, i: int)
    requires pat != [] && 0 <= i && i + |pat| <= |s|
    requires forall j :: 0 <= j < i ==> !OccursAt(s, pat, j)
    ensures ReplaceAll(s, pat, rep) == s[..i] + ReplaceAll(s[i..], pat, rep)
    decreases i
  {
    if i == 0 {
      assert s[..0] == [] && s[0..] == s;
    } else {
      ReplaceAllCopy(s, pat, rep, i - 1);
      CopyMore(s, pat, rep, i);
    }
  }

  lemma CopyMore(s: string, pat: string, rep: string, i: int)
    requires pat != [] && 0 < i && i + |pat| <= |s| && !OccursAt(s, pat, i - 1)
    requires ReplaceAll(s, pat, rep) == s[..i - 1] + ReplaceAll(s[i - 1..], pat, rep)
    ensures ReplaceAll(s, pat, rep) == s[..i] + ReplaceAll(s[i..], pat, rep)
  {
    CopyStep(s, pat, rep, i - 1);
    assert s[..i - 1] + [s[i - 1]] == s[..i];
    JoinCopied(s[..i - 1], s[i - 1], s[..i], ReplaceAll(s[i..], pat, rep), ReplaceAll(s, pat, rep));
  }

  /** Up to the first occurrence of the tag the text is copied; the occurrence is
      replaced; the scan continues after it. */
  lemma ReplaceAllFirst(s: string, pat: string, rep: string, i: int)
    requires pat != [] && OccursAt(s, pat, i)
    requires forall j :: 0 <= j < i ==> !OccursAt(s, pat, j)
    ensures ReplaceAll(s, pat, rep) == s[..i] + rep + ReplaceAll(s[i + |pat|..], pat, rep)
  {
    ReplaceAllCopy(s, pat, rep, i);
    var u := s[i..];
    assert ReplaceAll(u, pat, rep) == rep + ReplaceAll(s[i + |pat|..], pat, rep) by {
      assert OccursAt(u, pat, 0) by { assert u[0..|pat|] == s[i..i + |pat|]; }
      assert u[|pat|..] == s[i + |pat|..];
    }
    Assoc(s[..i], rep, ReplaceAll(s[i + |pat|..], pat, rep));
  }

  /** When the tag occurs exactly once, at `i`, the result is the body with that one
      occurrence replaced. */
  lemma ReplaceAllOnce(s: string, pat: string, rep: string, i: int)
    requires pat != [] && OccursAt(s, pat, i)
    requires forall j :: j != i ==> !OccursAt(s, pat, j)
    ensures ReplaceAll(s, pat, rep) == s[..i] + rep + s[i + |pat|..]
  {
    ReplaceAllFirst(s, pat, rep, i);
    var t := s[i + |pat|..];
    forall j | 0 <= j <= |t| - |pat| ensures !OccursAt(t, pat, j) {
      assert t[j..j + |pat|] == s[i + |pat| + j..i + |pat| + j + |pat|];
      assert !OccursAt(s, pat, i + |pat| + j);
    }
    ReplaceAllAbsent(t, pat, rep);
  }

  /** Where the tag does not start the body, it occurs in the body exactly when it
      occurs in the tail. */
  lemma OccursInTail(s: string, pat: string)
    requires |s| >= 1 && !OccursAt(s, pat, 0)
    ensures Occurs(s, pat) <==> Occurs(s[1..], pat)
  {
    if Occurs(s, pat) {
      var j :| 0 <= j <= |s| - |pat| && OccursAt(s, pat, j);
      assert s[1..][j - 1..j - 1 + |pat|] == s[j..j + |pat|];
      assert OccursAt(s[1..], pat, j - 1);
    }
    if Occurs(s[1..], pat) {
      var j :| 0 <= j <= |s[1..]| - |pat| && OccursAt(s[1..], pat, j);
      OccursShift(s, pat, j);
    }
  }

  /** Replacing by something longer never loses text, and grows the body exactly when the
      tag occurs. */
  lemma {:induction false} ReplaceAllGrows(s: string, pat: string, rep: string)
    requires pat != [] && |rep| > |pat|
    ensures |ReplaceAll(s, pat, rep)| >= |s|
    ensures |ReplaceAll(s, pat, rep)| > |s| <==> Occurs(s, pat)
    decreases |s|
  {
    if |s| < |pat| {
      assert ReplaceAll(s, pat, rep) == s;
    } else if OccursAt(s, pat, 0) {
      assert |ReplaceAll(s, pat, rep)| == |rep| + |ReplaceAll(s[|pat|..], pat, rep)|;
      ReplaceAllGrows(s[|pat|..], pat, rep);
      assert Occurs(s, pat);
    } else {
      assert |ReplaceAll(s, pat, rep)| == 1 + |ReplaceAll(s[1..], pat, rep)| by {
        ReplaceAllSkip(s, pat, rep);
      }
      ReplaceAllGrows(s[1..], pat, rep);
      OccursInTail(s, pat);
    }
  }

  /** Hence a splice that inserts a non-empty snippet changes the body if and only if the
      tag is present. */
  lemma ReplaceAllChangesIff(s: string, pat: string, rep: string)
    requires pat != [] && |rep| > |pat|
    ensures ReplaceAll(s, pat, rep) != s <==> Occurs(s, pat)
  {
    ReplaceAllGrows(s, pat, rep);
    if !Occurs(s, pat) { ReplaceAllAbsent(s, pat, rep); }
  }

  /** With exactly one `<head>`, at `i`, the header lands immediately after that tag. */
  lemma InjectHeaderAt(body: string, h: string, i: int)
    requires OccursAt(body, HeadTag, i)
    requires forall j :: j != i ==> !OccursAt(body, HeadTag, j)
    ensures InjectHeader(body, h) == body[..i + |HeadTag|] + h + body[i + |HeadTag|..]
  {
    ReplaceAllOnce(body, HeadTag, HeadTag + h, i);
    assert body[i..i + |HeadTag|] == HeadTag;
    assert body[..i] + HeadTag == body[..i + |HeadTag|];
  }

  /** With exactly one `</body>`, at `i`, the footer lands immediately before that tag. */
  lemma InjectFooterAt(body: string, f: string, i: int)
    requires OccursAt(body, BodyEndTag, i)
    requires forall j :: j != i ==> !OccursAt(body, BodyEndTag, j)
    ensures InjectFooter(body, f) == body[..i] + f + body[i..]
  {
    ReplaceAllOnce(body, BodyEndTag, f + BodyEndTag, i);
    assert body[i..i + |BodyEndTag|] == BodyEndTag;
    assert BodyEndTag + body[i + |BodyEndTag|..] == body[i..];
  }

  /** A snippet pass with a non-empty snippet changes the body exactly when its tag is
      present. */
  lemma InjectChangesIff(body: string, h: string, f: string)
    requires h != [] && f != []
    ensures InjectHeader(body, h) != body <==> Occurs(body, HeadTag)
    ensures InjectFooter(body, f) != body <==> Occurs(body, BodyEndTag)
  {
    ReplaceAllChangesIff(body, HeadTag, HeadTag + h);
    ReplaceAllChangesIff(body, BodyEndTag, f + BodyEndTag);
  }

  /** Where a `</body>` can sit once the header pass has spliced `h` after the `<head>` at
      `i`: wholly before the end of that tag, where it was already, or wholly after the
      header, where it is a `</body>` of the original shifted by `|h|`. Neither the
      `<head>` tag nor a header without `<` can start one. */
  lemma FooterTagAfterHeader(body: string, h: string, i: int, k: int)
    requires OccursAt(body, HeadTag, i) && '<' !in h
    requires OccursAt(body[..i + |HeadTag|] + h + body[i + |HeadTag|..], BodyEndTag, k)
    ensures (k + |BodyEndTag| <= i + |HeadTag| && OccursAt(body, BodyEndTag, k))
         || (k >= i + |HeadTag| + |h| && OccursAt(body, BodyEndTag, k - |h|))
  {
    var p := i + |HeadTag|;
    var t := body[..p] + h + body[p..];
    assert t[k..k + 7][0] == t[k] && t[k..k + 7][1] == t[k + 1];
    assert body[i..p][0] == body[i] && body[i..p][1] == body[i + 1];
    if k + 7 <= p {
      assert t[k..k + 7] == body[k..k + 7] by {
        forall n | k <= n < k + 7 ensures t[n] == body[n] { }
      }
    } else if k < p {
      assert false;
    } else if k < p + |h| {
      assert false;
    } else {
      assert t[k..k + 7] == body[k - |h|..k - |h| + 7] by {
        forall n | k <= n < k + 7 ensures t[n] == body[n - |h|] { }
      }
    }
  }

  /** A `</body>` after the `<head>` at `i` is still there, `|h|` further on, once the
      header pass has run. */
  lemma FooterTagKept(body: string, h: string, i: int, j: int)
    requires OccursAt(body, HeadTag, i) && OccursAt(body, BodyEndTag, j) && i + |HeadTag| <= j
    ensures OccursAt(body[..i + |HeadTag|] + h + body[i + |HeadTag|..], BodyEndTag, j + |h|)
  {
    var p := i + |HeadTag|;
    var t := body[..p] + h + body[p..];
    assert t[j + |h|..j + |h| + 7] == body[j..j + 7] by {
      forall n | j + |h| <= n < j + |h| + 7 ensures t[n] == body[n - |h|] { }
    }
  }

  /** Both passes over a body with one `<head>`, at `i`, and one later `</body>`, at `j`:
      the header lands right after the first tag and the footer right before the second.
      The header must not open a tag, or the footer pass could find a `</body>` in it. */
  lemma InjectBothAt(body: string, h: string, f: string, i: int, j: int)
    requires OccursAt(body, HeadTag, i) && forall k :: k != i ==> !OccursAt(body, HeadTag, k)
    requires OccursAt(body, BodyEndTag, j) && forall k :: k != j ==> !OccursAt(body, BodyEndTag, k)
    requires i + |HeadTag| <= j && '<' !in h
    ensures Inject(body, Some(h), Some(f))
         == body[..i + |HeadTag|] + h + body[i + |HeadTag|..j] + f + body[j..]
  {
    var p := i + |HeadTag|;
    var t := body[..p] + h + body[p..];
    InjectHeaderAt(body, h, i);
    assert Inject(body, Some(h), Some(f)) == InjectFooter(t, f);
    FooterTagUnique(body, h, i, j);
    InjectFooterAt(t, f, j + |h|);
    SpliceSlices(body, h, f, p, j);
  }

  /** After the header pass, the one `</body>` of such a body is the only one, `|h|`
      further on. */
  lemma FooterTagUnique(body: string, h: string, i: int, j: int)
    requires OccursAt(body, HeadTag, i)
    requires OccursAt(body, BodyEndTag, j) && forall k :: k != j ==> !OccursAt(body, BodyEndTag, k)
    requires i + |HeadTag| <= j && '<' !in h
    ensures var t := body[..i + |HeadTag|] + h + body[i + |HeadTag|..];
            OccursAt(t, BodyEndTag, j + |h|) && forall k :: k != j + |h| ==> !OccursAt(t, BodyEndTag, k)
  {
    var t := body[..i + |HeadTag|] + h + body[i + |HeadTag|..];
    FooterTagKept(body, h, i, j);
    forall k | k != j + |h| ensures !OccursAt(t, BodyEndTag, k) {
      if OccursAt(t, BodyEndTag, k) { FooterTagAfterHeader(body, h, i, k); }
    }
  }

  /** Cutting the header pass's result at the shifted `</body>` position. */
  lemma SpliceSlices(body: string, h: string, f: string, p: int, j: int)
    requires 0 <= p <= j <= |body|
    ensures var t := body[..p] + h + body[p..];
            t[..j + |h|] + f + t[j + |h|..] == body[..p] + h + body[p..j] + f + body[j..]
  {
    var t := body[..p] + h + body[p..];
    assert t[..j + |h|] == body[..p] + h + body[p..j];
    assert t[j + |h|..] == body[j..];
  }

  /** Both passes over a body with one `<head>`, at `i`, and no `</body>`: only the header
      is spliced in. */
  lemma InjectHeaderOnlyAt(body: string, h: string, f: string, i: int)
    requires OccursAt(body, HeadTag, i) && forall k :: k != i ==> !OccursAt(body, HeadTag, k)
    requires !Occurs(body, BodyEndTag) && '<' !in h
    ensures Inject(body, Some(h), Some(f)) == body[..i + |HeadTag|] + h + body[i + |HeadTag|..]
  {
    var t := body[..i + |HeadTag|] + h + body[i + |HeadTag|..];
    InjectHeaderAt(body, h, i);
    forall k | 0 <= k <= |t| - |BodyEndTag| ensures !OccursAt(t, BodyEndTag, k) {
      if OccursAt(t, BodyEndTag, k) { FooterTagAfterHeader(body, h, i, k); }
    }
    ReplaceAllAbsent(t, BodyEndTag, f + BodyEndTag);
  }

  /** Both passes over a body with no `<head>` and one `</body>`, at `j`: only the footer is
      spliced in. */
  lemma InjectFooterOnlyAt(body: string, h: string, f: string, j: int)
    requires !Occurs(body, HeadTag)
    requires OccursAt(body, BodyEndTag, j) && forall k :: k != j ==> !OccursAt(body, BodyEndTag, k)
    ensures Inject(body, Some(h), Some(f)) == body[..j] + f + body[j..]
  {
    ReplaceAllAbsent(body, HeadTag, HeadTag + h);
    InjectFooterAt(body, f, j);
  }

  // ---------------------------------------------------------------------------
  // Screening concrete bodies: an occurrence needs its first character and its m-th
  // character in place, so a body where no position has both contains the tag nowhere
  // else.

  lemma OnlyOccurrence(s: string, pat: string, m: nat, i: int)
    requires 0 < m < |pat|
    requires forall j :: 0 <= j < |s| - m && j != i ==> !(s[j] == pat[0] && s[j + m] == pat[m])
    ensures forall j :: j != i ==> !OccursAt(s, pat, j)
  {
    forall j | j != i && 0 <= j <= |s| - |pat| ensures !OccursAt(s, pat, j) {
      assert s[j..j + |pat|][0] == s[j] && s[j..j + |pat|][m] == s[j + m];
    }
  }

  lemma NoOccurrence(s: string, pat: string, m: nat)
    requires 0 < m < |pat|
    requires forall j :: 0 <= j < |s| - m ==> !(s[j] == pat[0] && s[j + m] == pat[m])
    ensures !Occurs(s, pat)
  {
    forall j | 0 <= j <= |s| - |pat| ensures !OccursAt(s, pat, j) {
      assert s[j..j + |pat|][0] == s[j] && s[j..j + |pat|][m] == s[j + m];
    }
  }

  /** Both passes with non-empty snippets change the body exactly when a pass that runs
      finds its tag in the original body: a header pass that inserts something only
      lengthens the body, and one that finds no tag leaves it as it was. */
  lemma InjectChangesBodyIff(body: string, header: Option<string>, footer: Option<string>)
    requires header.Some? ==> header.value != []
    requires footer.Some? ==> footer.value != []
    ensures Inject(body, header, footer) != body
        <==> (header.Some? && Occurs(body, HeadTag)) || (footer.Some? && Occurs(body, BodyEndTag))
  {
    var withHeader := if header.Some? then InjectHeader(body, header.value) else body;
    if header.Some? {
      ReplaceAllGrows(body, HeadTag, HeadTag + header.value);
      if !Occurs(body, HeadTag) { ReplaceAllAbsent(body, HeadTag, HeadTag + header.value); }
    }
    if footer.Some? {
      ReplaceAllGrows(withHeader, BodyEndTag, footer.value + BodyEndTag);
      ReplaceAllChangesIff(withHeader, BodyEndTag, footer.value + BodyEndTag);
    }
  }

  // ---------------------------------------------------------------------------
  // The data-provider rows of the listener test (ResponseListenerTest.php:175-185), for
  // any snippet text

  /** The test bodies with tags, as a tag and the text around it: `<head><title /></head>`,
      `<body><div /></body>` and `<head><title /></head><body><div /></body>`. */
  const HeadRowRest: string := "<title /></head>"
  const FootRowFront: string := "<body><div />"
  const BothTagsFront: string := "<title /></head><body><div />"

  /** The `<head>`-only row has its one `<head>` at the start and no `</body>`. */
  lemma HeadRowScreen(s: string)
    requires s == HeadTag + HeadRowRest
    ensures OccursAt(s, HeadTag, 0) && forall j :: j != 0 ==> !OccursAt(s, HeadTag, j)
    ensures !Occurs(s, BodyEndTag)
  {
    assert s[..6] == HeadTag;
    forall j | 0 <= j < |s| - 1 && j != 0 ensures !(s[j] == HeadTag[0] && s[j + 1] == HeadTag[1]) {
      if j < 6 { assert s[j] == HeadTag[j]; }
      else { assert s[j] == HeadRowRest[j - 6] && s[j + 1] == HeadRowRest[j - 5]; }
    }
    OnlyOccurrence(s, HeadTag, 1, 0);
    forall j | 0 <= j < |s| - 2 ensures !(s[j] == BodyEndTag[0] && s[j + 2] == BodyEndTag[2]) {
      if j < 6 { assert s[j] == HeadTag[j]; assert j + 2 < 6 ==> s[j + 2] == HeadTag[j + 2]; }
      else { assert s[j] == HeadRowRest[j - 6] && s[j + 2] == HeadRowRest[j - 4]; }
    }
    NoOccurrence(s, BodyEndTag, 2);
  }

  /** The `</body>`-only row has no `<head>` and its one `</body>` at the end. */
  lemma FootRowScreen(s: string)
    requires s == FootRowFront + BodyEndTag
    ensures !Occurs(s, HeadTag)
    ensures OccursAt(s, BodyEndTag, |FootRowFront|)
    ensures forall j :: j != |FootRowFront| ==> !OccursAt(s, BodyEndTag, j)
  {
    var k := |FootRowFront|;
    assert s[k..k + 7] == BodyEndTag;
    forall j | 0 <= j < |s| - 1 && j != k ensures !(s[j] == BodyEndTag[0] && s[j + 1] == BodyEndTag[1]) {
      if j < k { assert s[j] == FootRowFront[j]; assert j + 1 < k ==> s[j + 1] == FootRowFront[j + 1]; }
      else { assert s[j] == BodyEndTag[j - k]; }
    }
    OnlyOccurrence(s, BodyEndTag, 1, k);
    forall j | 0 <= j < |s| - 1 ensures !(s[j] == HeadTag[0] && s[j + 1] == HeadTag[1]) {
      if j < k { assert s[j] == FootRowFront[j]; assert j + 1 < k ==> s[j + 1] == FootRowFront[j + 1]; }
      else { assert s[j] == BodyEndTag[j - k]; }
    }
    NoOccurrence(s, HeadTag, 1);
  }

  lemma ExampleHeader(h: string)
    ensures InjectHeader(HeadTag + HeadRowRest, h) == HeadTag + h + HeadRowRest
  {
    var s := HeadTag + HeadRowRest;
    HeadRowScreen(s);
    InjectHeaderAt(s, h, 0);
    assert s[..6] == HeadTag && s[6..] == HeadRowRest;
  }

  lemma ExampleFooter(f: string)
    ensures InjectFooter(FootRowFront + BodyEndTag, f) == FootRowFront + f + BodyEndTag
  {
    var s := FootRowFront + BodyEndTag;
    FootRowScreen(s);
    InjectFooterAt(s, f, |FootRowFront|);
    assert s[..|FootRowFront|] == FootRowFront && s[|FootRowFront|..] == BodyEndTag;
  }

  /** The row with only `<head>`, both passes running: only the header is spliced in. */
  lemma ExampleHeaderWithFooter(h: string, f: string)
    requires '<' !in h
    ensures Inject(HeadTag + HeadRowRest, Some(h), Some(f)) == HeadTag + h + HeadRowRest
  {
    var s := HeadTag + HeadRowRest;
    HeadRowScreen(s);
    InjectHeaderOnlyAt(s, h, f, 0);
    assert s[..6] == HeadTag && s[6..] == HeadRowRest;
  }

  /** The row with only `</body>`, both passes running: the header pass finds no `<head>`. */
  lemma ExampleFooterWithHeader(h: string, f: string)
    ensures Inject(FootRowFront + BodyEndTag, Some(h), Some(f)) == FootRowFront + f + BodyEndTag
  {
    var s := FootRowFront + BodyEndTag;
    FootRowScreen(s);
    InjectFooterOnlyAt(s, h, f, |FootRowFront|);
    assert s[..|FootRowFront|] == FootRowFront && s[|FootRowFront|..] == BodyEndTag;
  }

  /** The two-tag row after its `<head>`. */
  const BothTagsRest: string := BothTagsFront + BodyEndTag

  /** The two-tag row has its one `<head>` at the start. */
  lemma BothTagsHeaderScreen(s: string)
    requires s == HeadTag + BothTagsRest
    ensures OccursAt(s, HeadTag, 0)
    ensures forall j :: j != 0 ==> !OccursAt(s, HeadTag, j)
  {
    assert s[..6] == HeadTag;
    forall j | 0 <= j < |s| - 1 && j != 0 ensures !(s[j] == HeadTag[0] && s[j + 1] == HeadTag[1]) {
      if j < 6 { assert s[j] == HeadTag[j]; }
      else { assert s[j] == BothTagsRest[j - 6] && s[j + 1] == BothTagsRest[j - 5]; }
    }
    OnlyOccurrence(s, HeadTag, 1, 0);
  }

  /** The two-tag row has its one `</body>` at the end. */
  lemma BothTagsFooterScreen(s: string)
    requires s == HeadTag + BothTagsRest
    ensures OccursAt(s, BodyEndTag, |HeadTag + BothTagsFront|)
    ensures forall j :: j != |HeadTag + BothTagsFront| ==> !OccursAt(s, BodyEndTag, j)
  {
    var k := |HeadTag + BothTagsFront|;
    assert s[k..k + 7] == BodyEndTag;
    forall j | 0 <= j < |s| - 2 && j != k ensures !(s[j] == BodyEndTag[0] && s[j + 2] == BodyEndTag[2]) {
      if j < 6 { assert s[j] == HeadTag[j]; assert j + 2 < 6 ==> s[j + 2] == HeadTag[j + 2]; }
      else if j < k { assert s[j] == BothTagsFront[j - 6]; assert j + 2 < k ==> s[j + 2] == BothTagsFront[j - 4]; }
      else { assert s[j] == BodyEndTag[j - k]; }
    }
    OnlyOccurrence(s, BodyEndTag, 2, k);
  }

  /** Both tags: the header after `<head>` and the footer before `</body>`, for any header
      that does not itself open a tag. */
  lemma ExampleHeaderAndFooter(h: string, f: string)
    requires '<' !in h
    ensures Inject(HeadTag + BothTagsRest, Some(h), Some(f)) == HeadTag + h + BothTagsFront + f + BodyEndTag
  {
    var s := HeadTag + BothTagsRest;
    var k := |HeadTag + BothTagsFront|;
    BothTagsHeaderScreen(s);
    BothTagsFooterScreen(s);
    InjectBothAt(s, h, f, 0, k);
    assert s[..6] == HeadTag && s[6..k] == BothTagsFront && s[k..] == BodyEndTag;
  }

  /** A body in which neither tag occurs is returned unchanged, whichever passes run. */
  lemma UnchangedWithoutTags(s: string, header: Option<string>, footer: Option<string>)
    requires !Occurs(s, HeadTag) && !Occurs(s, BodyEndTag)
    ensures Inject(s, header, footer) == s
  {
    if header.Some? { ReplaceAllAbsent(s, HeadTag, HeadTag + header.value); }
    if footer.Some? { ReplaceAllAbsent(s, BodyEndTag, footer.value + BodyEndTag); }
  }

  /** The same for a concrete body that no position passes the two-character screen for
      either tag. */
  lemma UnchangedScreened(s: string, header: Option<string>, footer: Option<string>, mh: nat, mf: nat)
    requires 0 < mh < |HeadTag| && 0 < mf < |BodyEndTag|
    requires forall j :: 0 <= j < |s| - mh ==> !(s[j] == HeadTag[0] && s[j + mh] == HeadTag[mh])
    requires forall j :: 0 <= j < |s| - mf ==> !(s[j] == BodyEndTag[0] && s[j + mf] == BodyEndTag[mf])
    ensures Inject(s, header, footer) == s
  {
    NoOccurrence(s, HeadTag, mh);
    NoOccurrence(s, BodyEndTag, mf);
    UnchangedWithoutTags(s, header, footer);
  }

  /** The rows whose bodies have no exact tag: plain text, a `head` class, a `<header>`. */
  lemma ExamplePlainText(header: Option<string>, footer: Option<string>)
    ensures Inject("content", header, footer) == "content"
  {
    UnchangedScreened("content", header, footer, 1, 1);
  }

  lemma ExampleHeadClass(header: Option<string>, footer: Option<string>)
    ensures Inject("<div class=\"head\">head</div>", header, footer) == "<div class=\"head\">head</div>"
  {
    UnchangedScreened("<div class=\"head\">head</div>", header, footer, 1, 2);
  }

  lemma ExampleHeaderElement(header: Option<string>, footer: Option<string>)
    ensures Inject("<header>content</header>", header, footer) == "<header>content</header>"
  {
    UnchangedScreened("<header>content</header>", header, footer, 5, 2);
  }

  /** The gate passes exactly the content types that begin with `text/html`: a bare
      type and one followed by any parameter text alike. */
  lemma IsHtmlIff(contentType: string)
    ensures IsHtml(contentType)
        <==> |contentType| >= |HtmlMediaType| && contentType[..|HtmlMediaType|] == HtmlMediaType
  {
    if |contentType| >= |HtmlMediaType| && contentType[..|HtmlMediaType|] == HtmlMediaType {
      forall k | 0 <= k < |HtmlMediaType| ensures contentType[k] == HtmlMediaType[k] {
        assert contentType[..|HtmlMediaType|][k] == contentType[k];
      }
    }
  }

  lemma IsHtmlWithParameters(rest: string)
    ensures IsHtml(HtmlMediaType + rest)
  {
    var t := HtmlMediaType + rest;
    forall k | 0 <= k < |HtmlMediaType| ensures t[k] == HtmlMediaType[k] {
    }
  }

  /** The content-type rows: the three non-HTML types fail the gate, `text/html` with or
      without a charset parameter passes. */
  lemma ExamplesContentType()
    ensures !IsHtml("text/xml") && !IsHtml("text/plain") && !IsHtml("application/json")
    ensures IsHtml("text/html") && IsHtml("text/html; charset=UTF-8")
  {
    assert "text/plain"[5] != HtmlMediaType[5];
    assert "application/json"[0] != HtmlMediaType[0];
  }
}
