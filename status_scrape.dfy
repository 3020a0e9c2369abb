/** The three regular expressions _parseResponse runs over the receiver's
    status page, written as searches. Each pattern is
    <Tag><value>CAPTURE</value></Tag>, and RegExp.exec returns the match
    that starts leftmost; at that start the capture is the one the engine
    settles on: for FriendlyName, `(.+)` is greedy, so the capture runs to
    the LAST closing tag on the same line; for ZonePower, `([A-Z]+)`, and
    MasterVolume, `(-?[0-9.]+)`, only one capture can be followed by the
    closing tag. */
module StatusScrape {
  import opened Wrappers
  import opened NumberText

  datatype Field = FriendlyName | ZonePower | MasterVolume

  function TagName(f: Field): string {
    match f
    case FriendlyName => "FriendlyName"
    case ZonePower => "ZonePower"
    case MasterVolume => "MasterVolume"
  }

  function OpenTag(f: Field): string {
    "<" + TagName(f) + "><value>"
  }

  function CloseTag(f: Field): string {
    "</value></" + TagName(f) + ">"
  }

  /** w occurs in data starting at position i. */
  predicate PrefixAt(data: string, i: nat, w: string) {
    i + |w| <= |data| && data[i..i + |w|] == w
  }

  predicate IsUpper(c: char) {
    'A' <= c <= 'Z'
  }

  /** The characters JavaScript's `.` does not match: line feed, carriage
      return, line separator and paragraph separator. */
  predicate IsLineTerminator(c: char) {
    c == '\n' || c == '\r' || c == '\U{2028}' || c == '\U{2029}'
  }

  /** The characters a capture of field f is made of (the minus sign of a
      volume aside). */
  predicate InCapture(f: Field, c: char) {
    match f
    case FriendlyName => !IsLineTerminator(c)
    case ZonePower => IsUpper(c)
    case MasterVolume => IsDecimalChar(c)
  }

  /** What the capture group of field f accepts. */
  predicate IsCapture(f: Field, c: string) {
    match f
    case FriendlyName => |c| > 0 && forall k :: 0 <= k < |c| ==> InCapture(f, c[k])
    case ZonePower => |c| > 0 && forall k :: 0 <= k < |c| ==> InCapture(f, c[k])
    case MasterVolume => IsVolumeText(c)
  }

  /** The pattern of field f matches data at position i with capture c. */
  predicate MatchesAt(f: Field, data: string, i: nat, c: string) {
    && PrefixAt(data, i, OpenTag(f))
    && PrefixAt(data, i + |OpenTag(f)|, c)
    && PrefixAt(data, i + |OpenTag(f)| + |c|, CloseTag(f))
    && IsCapture(f, c)
  }

  /** The end of the run of capture characters of f that starts at k. */
  function RunEnd(f: Field, data: string, k: nat): (e: nat)
    requires k <= |data|
    ensures k <= e <= |data|
    ensures forall j :: k <= j < e ==> InCapture(f, data[j])
    ensures e < |data| ==> !InCapture(f, data[e])
    decreases |data| - k
  {
    if k == |data| || !InCapture(f, data[k]) then k else RunEnd(f, data, k + 1)
  }

  /** The last position in [lo, hi] where w occurs. */
  function LastPrefixIn(data: string, lo: nat, hi: nat, w: string): (r: Option<nat>)
    ensures r.Some? ==> lo <= r.value <= hi && PrefixAt(data, r.value, w)
    ensures r.Some? ==> forall j :: r.value < j <= hi ==> !PrefixAt(data, j, w)
    ensures r.None? ==> forall j :: lo <= j <= hi ==> !PrefixAt(data, j, w)
    decreases hi
  {
    if hi < lo then None
    else if PrefixAt(data, hi, w) then Some(hi)
    else if hi == 0 then None
    else LastPrefixIn(data, lo, hi - 1, w)
  }

  /** The capture of field f when its pattern is tried at position i, as
      the regular expression engine picks it (CaptureAtComplete states that
      it is the longest, and for power and volume the only, capture). */
  function CaptureAt(f: Field, data: string, i: nat): (r: Option<string>)
    ensures r.Some? ==> MatchesAt(f, data, i, r.value)
  {
    if !PrefixAt(data, i, OpenTag(f)) then None
    else
      var s := i + |OpenTag(f)|;
      match f
      case FriendlyName => NameCaptureAt(data, i, s)
      case ZonePower => TokenCaptureAt(f, data, i, s, s)
      case MasterVolume =>
        TokenCaptureAt(f, data, i, s, if s < |data| && data[s] == '-' then s + 1 else s)
  }

  /** `(.+)` tried at i: from s, the end of the opening tag, to the last
      closing tag that starts on the same line. */
  function NameCaptureAt(data: string, i: nat, s: nat): (r: Option<string>)
    requires PrefixAt(data, i, OpenTag(FriendlyName)) && s == i + |OpenTag(FriendlyName)|
    ensures r.Some? ==> MatchesAt(FriendlyName, data, i, r.value)
  {
    match LastPrefixIn(data, s + 1, RunEnd(FriendlyName, data, s), CloseTag(FriendlyName))
    case None => None
    case Some(j) =>
      var c := data[s..j];
      assert forall k :: 0 <= k < |c| ==> InCapture(FriendlyName, c[k]) by {
        forall k | 0 <= k < |c| ensures InCapture(FriendlyName, c[k]) { assert c[k] == data[s + k]; }
      }
      Some(c)
  }

  /** A run of the token's characters that ends at the close tag is a
      match at i. */
  lemma TokenMatch(f: Field, data: string, i: nat, s: nat, t: nat, e: nat)
    requires f != FriendlyName && PrefixAt(data, i, OpenTag(f)) && s == i + |OpenTag(f)|
    requires if f == MasterVolume && s < |data| && data[s] == '-' then t == s + 1 else t == s
    requires t < e <= |data| && PrefixAt(data, e, CloseTag(f))
    requires forall j :: t <= j < e ==> InCapture(f, data[j])
    ensures MatchesAt(f, data, i, data[s..e])
  {
    TokenIsCapture(f, data, s, t, e);
    var c := data[s..e];
    assert |c| == e - s && data[s..s + |c|] == c;
  }

  /** `([A-Z]+)` or `(-?[0-9.]+)` tried at i: the run of capture characters
      from t (after the optional minus sign) must be non-empty and followed
      at once by the closing tag. */
  function TokenCaptureAt(f: Field, data: string, i: nat, s: nat, t: nat): (r: Option<string>)
    requires f != FriendlyName && PrefixAt(data, i, OpenTag(f)) && s == i + |OpenTag(f)|
    requires if f == MasterVolume && s < |data| && data[s] == '-' then t == s + 1 else t == s
    ensures r.Some? ==> MatchesAt(f, data, i, r.value)
  {
    var e := RunEnd(f, data, t);
    if e > t && PrefixAt(data, e, CloseTag(f)) then
      TokenMatch(f, data, i, s, t, e);
      Some(data[s..e])
    else
      None
  }

  lemma TokenIsCapture(f: Field, data: string, s: nat, t: nat, e: nat)
    requires f != FriendlyName && s <= t < e <= |data|
    requires if f == MasterVolume && s < |data| && data[s] == '-' then t == s + 1 else t == s
    requires forall j :: t <= j < e ==> InCapture(f, data[j])
    ensures IsCapture(f, data[s..e])
  {
    var c := data[s..e];
    forall k | t - s <= k < |c| ensures InCapture(f, c[k]) { assert c[k] == data[s + k]; }
    if f == MasterVolume && t == s + 1 {
      assert c[0] == '-';
      forall k | 0 <= k < |c[1..]| ensures IsDecimalChar(c[1..][k]) { assert c[1..][k] == c[k + 1]; }
    }
  }

  /** A capture whose characters are all in the run starting at k ends
      within the run. */
  lemma {:induction false} CaptureWithinRun(f: Field, data: string, k: nat, n: nat)
    requires k + n <= |data|
    requires forall j :: k <= j < k + n ==> InCapture(f, data[j])
    ensures k + n <= RunEnd(f, data, k)
    decreases n
  {
    if n > 0 {
      assert InCapture(f, data[k]);
      CaptureWithinRun(f, data, k + 1, n - 1);
    }
  }

  /** The run starting at k stops at the first character outside it. */
  lemma {:induction false} RunStopsAt(f: Field, data: string, k: nat, n: nat)
    requires k <= n < |data| && !InCapture(f, data[n])
    ensures RunEnd(f, data, k) <= n
    decreases n - k
  {
    if k < n && InCapture(f, data[k]) {
      RunStopsAt(f, data, k + 1, n);
    }
  }

  /** Every capture the pattern allows at i is at most as long as the one
      CaptureAt picks, and for power and volume it is that one. */
  lemma CaptureAtComplete(f: Field, data: string, i: nat, c: string)
    requires MatchesAt(f, data, i, c)
    ensures CaptureAt(f, data, i).Some?
    ensures |c| <= |CaptureAt(f, data, i).value|
    ensures f != FriendlyName ==> CaptureAt(f, data, i) == Some(c)
  {
    var s := i + |OpenTag(f)|;
    if f == FriendlyName {
      NameCaptureComplete(data, i, s, c);
      assert CaptureAt(f, data, i) == NameCaptureAt(data, i, s);
    } else {
      var t := if f == MasterVolume && s < |data| && data[s] == '-' then s + 1 else s;
      TokenCaptureComplete(f, data, i, s, t, c);
      assert CaptureAt(f, data, i) == TokenCaptureAt(f, data, i, s, t);
    }
  }

  lemma NameCaptureComplete(data: string, i: nat, s: nat, c: string)
    requires MatchesAt(FriendlyName, data, i, c) && s == i + |OpenTag(FriendlyName)|
    ensures NameCaptureAt(data, i, s).Some? && |c| <= |NameCaptureAt(data, i, s).value|
  {
    NameCoversRun(data, i, s, c);
    CaptureWithinRun(FriendlyName, data, s, |c|);
    var last := LastPrefixIn(data, s + 1, RunEnd(FriendlyName, data, s), CloseTag(FriendlyName));
    assert PrefixAt(data, s + |c|, CloseTag(FriendlyName));
    assert last.Some? && s + |c| <= last.value;
  }

  /** Every character of a name capture belongs to the name's class. */
  lemma NameCoversRun(data: string, i: nat, s: nat, c: string)
    requires MatchesAt(FriendlyName, data, i, c) && s == i + |OpenTag(FriendlyName)|
    ensures s + |c| <= |data| && forall j :: s <= j < s + |c| ==> InCapture(FriendlyName, data[j])
  {
    assert data[s..s + |c|] == c;
    forall j | s <= j < s + |c| ensures InCapture(FriendlyName, data[j]) {
      assert data[j] == c[j - s];
    }
  }

  lemma TokenCaptureComplete(f: Field, data: string, i: nat, s: nat, t: nat, c: string)
    requires f != FriendlyName && MatchesAt(f, data, i, c) && s == i + |OpenTag(f)|
    requires if f == MasterVolume && s < |data| && data[s] == '-' then t == s + 1 else t == s
    ensures TokenCaptureAt(f, data, i, s, t) == Some(c)
  {
    var n := s + |c|;
    TokenRunEnd(f, data, i, s, t, c);
    assert RunEnd(f, data, t) == n;
    assert data[s..n] == c;
  }

  /** The run of capture characters from t ends exactly where the capture
      does, since the closing tag starts with '<'. */
  lemma TokenRunEnd(f: Field, data: string, i: nat, s: nat, t: nat, c: string)
    requires f != FriendlyName && MatchesAt(f, data, i, c) && s == i + |OpenTag(f)|
    requires if f == MasterVolume && s < |data| && data[s] == '-' then t == s + 1 else t == s
    ensures t < s + |c| && RunEnd(f, data, t) == s + |c|
  {
    var n := s + |c|;
    TokenCoversRun(f, data, i, s, t, c);
    CaptureWithinRun(f, data, t, n - t);
    CloseTagStopsRun(f, data, n);
    RunStopsAt(f, data, t, n);
  }

  /** The characters of a token capture after its sign all belong to the
      token's class. */
  lemma TokenCoversRun(f: Field, data: string, i: nat, s: nat, t: nat, c: string)
    requires f != FriendlyName && MatchesAt(f, data, i, c) && s == i + |OpenTag(f)|
    requires if f == MasterVolume && s < |data| && data[s] == '-' then t == s + 1 else t == s
    ensures t < s + |c| <= |data| && forall j :: t <= j < s + |c| ==> InCapture(f, data[j])
  {
    var n := s + |c|;
    assert data[s..n] == c;
    if f == MasterVolume && c[0] == '-' {
      assert data[s] == '-' && t == s + 1;
      assert |c| > 1 && AllDecimalChars(c[1..]);
      forall j | t <= j < n ensures InCapture(f, data[j]) {
        assert data[j] == c[1..][j - s - 1];
      }
    } else {
      assert t == s;
      forall j | t <= j < n ensures InCapture(f, data[j]) {
        assert data[j] == c[j - s];
      }
    }
  }

  /** A close tag starts with '<', which no token character is. */
  lemma CloseTagStopsRun(f: Field, data: string, n: nat)
    requires f != FriendlyName && PrefixAt(data, n, CloseTag(f))
    ensures n < |data| && !InCapture(f, data[n])
  {
    assert data[n..n + |CloseTag(f)|] == CloseTag(f);
    assert data[n] == '<';
  }

  /** A match of a pattern: where it starts and what it captured. */
  datatype Match = Match(start: nat, capture: string)

  /** RegExp.exec from position k on: the leftmost start at which the
      pattern matches. */
  function FirstMatchFrom(f: Field, data: string, k: nat): (r: Option<Match>)
    requires k <= |data|
    ensures r.Some? ==> k <= r.value.start <= |data| && CaptureAt(f, data, r.value.start) == Some(r.value.capture)
    ensures forall j :: k <= j <= |data| && (r.Some? ==> j < r.value.start) ==> CaptureAt(f, data, j).None?
    decreases |data| - k
  {
    match CaptureAt(f, data, k)
    case Some(c) => Some(Match(k, c))
    case None =>
      if k == |data| then None
      else
        var r := FirstMatchFrom(f, data, k + 1);
        assert forall j :: k < j <= |data| && (r.Some? ==> j < r.value.start) ==> CaptureAt(f, data, j).None?;
        r
  }

  /** `regex.exec(data)[1]` for the pattern of field f: the capture of the
      leftmost match, None where exec returns null. */
  function Extract(f: Field, data: string): (r: Option<string>)
    ensures r.Some? ==> IsCapture(f, r.value)
  {
    match FirstMatchFrom(f, data, 0)
    case Some(m) => Some(m.capture)
    case None => None
  }

  /** Extract fails exactly when the pattern matches nowhere; otherwise it
      reads the match at the leftmost start where the pattern matches: the
      longest capture there, and for the power and volume patterns the only
      one. */
  lemma ExtractIsLeftmost(f: Field, data: string, i: nat, c: string)
    requires MatchesAt(f, data, i, c)
    requires forall j: nat, c': string :: j < i ==> !MatchesAt(f, data, j, c')
    ensures Extract(f, data).Some?
    ensures Extract(f, data) == CaptureAt(f, data, i)
    ensures |c| <= |Extract(f, data).value|
    ensures f != FriendlyName ==> Extract(f, data) == Some(c)
  {
    CaptureAtComplete(f, data, i, c);
    var m := FirstMatchFrom(f, data, 0);
    assert i <= |data|;
    assert m.Some?;
    var k := m.value.start;
    assert MatchesAt(f, data, k, m.value.capture);
    assert k == i;
  }

  /** exec returns null only when the pattern matches nowhere: any match
      makes Extract succeed, at that start or before it. */
  lemma ExtractFindsAnyMatch(f: Field, data: string, i: nat, c: string)
    requires MatchesAt(f, data, i, c)
    ensures Extract(f, data).Some?
  {
    CaptureAtComplete(f, data, i, c);
    var m := FirstMatchFrom(f, data, 0);
    assert i <= |data|;
    assert m.Some?;
  }

  /** An element at the very start of the page is what is read: a power or
      volume element always, a name element when its line ends right after
      it. */
  lemma ExtractElementAtStart(f: Field, c: string, rest: string)
    requires IsCapture(f, c)
    requires f == FriendlyName ==> rest != [] && IsLineTerminator(rest[0])
    ensures Extract(f, OpenTag(f) + c + CloseTag(f) + rest) == Some(c)
  {
    var data := OpenTag(f) + c + CloseTag(f) + rest;
    ElementMatchesAtStart(f, c, rest);
    ExtractIsLeftmost(f, data, 0, c);
    if f == FriendlyName {
      var r := Extract(f, data).value;
      var s := |OpenTag(f)|;
      var n := s + |c| + |CloseTag(f)|;
      assert data[n] == rest[0];
      NameCloseBeforeLineEnd(data, 0, r, n);
      assert data[s..s + |r|] == r && data[s..s + |c|] == c;
    }
  }

  lemma ElementMatchesAtStart(f: Field, c: string, rest: string)
    requires IsCapture(f, c)
    ensures MatchesAt(f, OpenTag(f) + c + CloseTag(f) + rest, 0, c)
  {
    var data := OpenTag(f) + c + CloseTag(f) + rest;
    var s := |OpenTag(f)|;
    assert data[..s] == OpenTag(f);
    assert data[s..s + |c|] == c;
    assert data[s + |c|..s + |c| + |CloseTag(f)|] == CloseTag(f);
  }

  /** A name capture and its closing tag end before the first line
      terminator after the opening tag. */
  lemma NameCloseBeforeLineEnd(data: string, i: nat, c: string, end: nat)
    requires MatchesAt(FriendlyName, data, i, c)
    requires i + |OpenTag(FriendlyName)| <= end < |data| && IsLineTerminator(data[end])
    ensures i + |OpenTag(FriendlyName)| + |c| + |CloseTag(FriendlyName)| <= end
  {
    var s, w := i + |OpenTag(FriendlyName)|, CloseTag(FriendlyName);
    assert data[s..s + |c|] == c && data[s + |c|..s + |c| + |w|] == w;
    forall j | s <= j < s + |c| + |w| ensures !IsLineTerminator(data[j]) {
      if j < s + |c| {
        assert data[j] == c[j - s];
      } else {
        assert data[j] == w[j - s - |c|];
      }
    }
  }
}
