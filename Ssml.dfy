/**
 The SSML classifier `is_ssml`. A message is speech markup when the regular
 expression `^<speak\b[^>]*>(.*?)<\/speak>$` finds a match in it, with Ruby's
 meaning of every piece:
 - `^` holds at the start of the text or just after a line feed, and `$` at
   the end of the text or just before a line feed (line anchors, not text
   anchors);
 - `\b` after `<speak` needs a non-word character next;
 - `[^>]*` skips any characters but `>`, line feeds included, so the opening
   tag may run over several lines;
 - `.` does not match a line feed, so the content between the opening tag's
   `>` and `</speak>` stays on one line.

 `IsSpeakDocument` states this declaratively (some start, `>` and closing
 positions exist); `Matches` is the executable scanner, and `MatchesIff`
 proves the two agree on every text.
 */
module Ssml {
  import opened Results

  const OpenTag: string := "<speak"
  const CloseTag: string := "</speak>"

  /** The word characters of this model's `\b`: ASCII letters, digits and
      `_`. Ruby's `\b` also counts non-ASCII letters and digits as word
      characters, so the two differ when one of those follows `<speak`. */
  predicate IsWordChar(c: char) {
    ('a' <= c <= 'z') || ('A' <= c <= 'Z') || ('0' <= c <= '9') || c == '_'
  }

  /** `^` holds at position i. */
  predicate LineStartAt(s: string, i: nat)
    requires i <= |s|
  {
    i == 0 || s[i - 1] == '\n'
  }

  /** `$` holds at position i. */
  predicate LineEndAt(s: string, i: nat)
    requires i <= |s|
  {
    i == |s| || s[i] == '\n'
  }

  /** The text t occurs in s at position i. */
  predicate HasAt(s: string, i: nat, t: string) {
    i + |t| <= |s| && s[i..i + |t|] == t
  }

  /** `(.*?)<\/speak>$` read from position p: the closing tag starts at e,
      no line feed lies between p and e, and the line ends right after it. */
  ghost predicate ClosesAt(s: string, p: nat, e: nat) {
    && p <= e
    && HasAt(s, e, CloseTag)
    && (forall k :: p <= k < e ==> s[k] != '\n')
    && LineEndAt(s, e + |CloseTag|)
  }

  /** The whole expression matches with `<speak` at i, the opening tag's `>`
      at j and `</speak>` at e. */
  ghost predicate SpeakMatch(s: string, i: nat, j: nat, e: nat) {
    && i + |OpenTag| <= j < |s|
    && LineStartAt(s, i)
    && HasAt(s, i, OpenTag)
    && !IsWordChar(s[i + |OpenTag|])
    && (forall k :: i + |OpenTag| <= k < j ==> s[k] != '>')
    && s[j] == '>'
    && ClosesAt(s, j + 1, e)
  }

  /** The reference meaning of "the regular expression finds a match". */
  ghost predicate IsSpeakDocument(s: string) {
    exists i: nat, j: nat, e: nat :: SpeakMatch(s, i, j, e)
  }

  /** The position of the first `>` at or after k (`[^>]*>`), or |s| if none. */
  function NextGt(s: string, k: nat): (r: nat)
    requires k <= |s|
    ensures k <= r <= |s|
    ensures r < |s| ==> s[r] == '>'
    ensures forall m :: k <= m < r ==> s[m] != '>'
    decreases |s| - k
  {
    if k == |s| || s[k] == '>' then k else NextGt(s, k + 1)
  }

  /** Scans one line from p for a `</speak>` that ends it. */
  function CloseOnLine(s: string, p: nat): bool
    requires p <= |s|
    decreases |s| - p
  {
    if HasAt(s, p, CloseTag) && LineEndAt(s, p + |CloseTag|) then true
    else if p < |s| && s[p] != '\n' then CloseOnLine(s, p + 1)
    else false
  }

  /** The expression matches with `<speak` at position i. */
  predicate MatchAt(s: string, i: nat)
    requires i <= |s|
  {
    && LineStartAt(s, i)
    && HasAt(s, i, OpenTag)
    && i + |OpenTag| < |s|
    && !IsWordChar(s[i + |OpenTag|])
    && var j := NextGt(s, i + |OpenTag|);
       j < |s| && CloseOnLine(s, j + 1)
  }

  /** Some match starts at or after position i. */
  function ScanFrom(s: string, i: nat): bool
    requires i <= |s|
    decreases |s| - i
  {
    MatchAt(s, i) || (i < |s| && ScanFrom(s, i + 1))
  }

  /** `text =~ /^<speak\b[^>]*>(.*?)<\/speak>$/`, read for its truthiness. */
  function Matches(s: string): bool {
    ScanFrom(s, 0)
  }

  lemma {:induction false} CloseOnLineIff(s: string, p: nat)
    requires p <= |s|
    ensures CloseOnLine(s, p) <==> exists e: nat :: ClosesAt(s, p, e)
    decreases |s| - p
  {
    if HasAt(s, p, CloseTag) && LineEndAt(s, p + |CloseTag|) {
      assert ClosesAt(s, p, p);
    } else if p < |s| && s[p] != '\n' {
      var q := p + 1;
      CloseOnLineIff(s, q);
      if e: nat :| ClosesAt(s, q, e) {
        assert ClosesAt(s, p, e);
      }
      if e: nat :| ClosesAt(s, p, e) {
        assert ClosesAt(s, q, e);
      }
    }
  }

  lemma MatchAtIff(s: string, i: nat)
    requires i <= |s|
    ensures MatchAt(s, i) <==> exists j: nat, e: nat :: SpeakMatch(s, i, j, e)
  {
    if MatchAt(s, i) {
      var j := NextGt(s, i + |OpenTag|);
      CloseOnLineIff(s, j + 1);
      var e: nat :| ClosesAt(s, j + 1, e);
      assert SpeakMatch(s, i, j, e);
    }
    if j: nat, e: nat :| SpeakMatch(s, i, j, e) {
      var g := NextGt(s, i + |OpenTag|);
      assert g == j;
      CloseOnLineIff(s, j + 1);
    }
  }

  lemma {:induction false} ScanFromIff(s: string, i: nat)
    requires i <= |s|
    ensures ScanFrom(s, i) <==> exists k: nat :: i <= k <= |s| && MatchAt(s, k)
    decreases |s| - i
  {
    if i < |s| {
      ScanFromIff(s, i + 1);
      if k: nat :| i <= k <= |s| && MatchAt(s, k) {
        if k > i {
          assert i + 1 <= k <= |s| && MatchAt(s, k);
        }
      }
    }
  }

  /** The scanner and the declarative reading agree on every text. */
  lemma MatchesIff(s: string)
    ensures Matches(s) <==> IsSpeakDocument(s)
  {
    ScanFromIff(s, 0);
    if Matches(s) {
      var k: nat :| k <= |s| && MatchAt(s, k);
      MatchAtIff(s, k);
    }
    if IsSpeakDocument(s) {
      var i: nat, j: nat, e: nat :| SpeakMatch(s, i, j, e);
      MatchAtIff(s, i);
      assert i <= |s| && MatchAt(s, i);
    }
  }

  /** A one-line document is accepted. */
  lemma AcceptsDocument()
    ensures IsSpeakDocument("<speak>Hi</speak>")
  {
    var s := "<speak>Hi</speak>";
    assert SpeakMatch(s, 0, 6, 9);
  }

  /** A document on a later line than other text is accepted (`^` and `$`
      are line anchors). */
  lemma AcceptsLaterLine()
    ensures IsSpeakDocument("Say:\n<speak>Hi</speak>")
  {
    var s := "Say:\n<speak>Hi</speak>";
    forall k | 0 <= k < |OpenTag| ensures s[5 + k] == OpenTag[k] { }
    assert s[5..11] == OpenTag;
    forall k | 0 <= k < |CloseTag| ensures s[14 + k] == CloseTag[k] { }
    assert s[14..22] == CloseTag;
    assert SpeakMatch(s, 5, 11, 14);
  }

  /** An opening tag broken by a line feed is accepted (`[^>]` matches it). */
  lemma AcceptsSplitOpeningTag()
    ensures IsSpeakDocument("<speak\n>Hi</speak>")
  {
    var s := "<speak\n>Hi</speak>";
    assert SpeakMatch(s, 0, 7, 10);
  }

  /** Plain text is refused. */
  lemma RejectsPlainText()
    ensures !IsSpeakDocument("Hi")
  {
    MatchesIff("Hi");
  }

  /** A tag that only starts with `speak` is refused (the word boundary). */
  lemma RejectsLongerTag()
    ensures !IsSpeakDocument("<speaker>Hi</speak>")
  {
    MatchesIff("<speaker>Hi</speak>");
  }

  /** Content that runs over a line feed is refused. */
  lemma RejectsContentOverLineFeed()
    ensures !IsSpeakDocument("<speak>Hi\n</speak>")
  {
    var split := "<speak>Hi\n</speak>";
    MatchesIff(split);
    assert !CloseOnLine(split, 7);
  }

  /** `is_ssml(text)`: nil raises "Missing text" (the `return false` after
      `handle_error` never runs); a string is classified by the expression. */
  function IsSsml(text: Option<string>): (r: Result<bool>)
    ensures text.None? <==> r.Err?
    ensures r.Err? ==> r.error == Raised("Missing text")
    ensures r.Ok? ==> (r.value <==> IsSpeakDocument(text.value))
  {
    match text
    case None => Err(Raised("Missing text"))
    case Some(s) => MatchesIff(s); Ok(Matches(s))
  }
}
