/** Plate-recognition post-processing of `licensePlateService.js`: the filter that
    keeps OCR text lines that look like a plate, the choice of the best line, the
    classification of the OCR service's answers into results, and the access-token
    cache. The network answers, the clock and the mock-data switch are parameters;
    confidence values are not modelled. */
module LicensePlateService {
  import opened Wrappers
  import JsText
  import Seqs

  /** `text.replace(/\s/g, '')` */
  function RemoveSpaces(s: string): (r: string)
    ensures forall k :: 0 <= k < |r| ==> !JsText.IsJsSpace(r[k]) && r[k] in s
    ensures forall k :: 0 <= k < |s| && !JsText.IsJsSpace(s[k]) ==> s[k] in r
    ensures Seqs.IsSubsequence(r, s)
    ensures forall k :: 0 <= k < |s| ==>
      multiset(r)[s[k]] == if !JsText.IsJsSpace(s[k]) then multiset(s)[s[k]] else 0
  {
    Seqs.FilterIsSubsequence(s, NotSpace);
    Seqs.FilterCounts(s, NotSpace);
    Seqs.Filter(s, NotSpace)
  }

  function NotSpace(c: char): bool {
    !JsText.IsJsSpace(c)
  }

  /** The cleaned form the filter tests: white space removed, then upper-cased. */
  function Clean(s: string): string {
    JsText.Upper(RemoveSpaces(s))
  }

  predicate IsCjk(c: char) {
    0x4E00 <= c as int <= 0x9FFF
  }

  predicate IsPlateChar(c: char) {
    'A' <= c <= 'Z' || '0' <= c <= '9'
  }

  /** `/[一-鿿]/.test(s)` */
  predicate HasCjk(s: string) {
    exists k | 0 <= k < |s| :: IsCjk(s[k])
  }

  /** `/^[A-Z0-9\s]{3,8}$/.test(s)`: 3 to 8 UTF-16 units, each a capital, a digit or white space. */
  predicate MatchesPlatePattern(s: string) {
    (forall k :: 0 <= k < |s| ==> IsPlateChar(s[k]) || JsText.IsJsSpace(s[k])) &&
    3 <= JsText.JsLength(s) <= 8
  }

  /** `/[A-Z0-9]/.test(s)` */
  predicate HasPlateChar(s: string) {
    exists k | 0 <= k < |s| :: IsPlateChar(s[k])
  }

  /** The filter callback at lines 124-153: keep a text iff its cleaned form has no CJK
      character, matches the plate pattern and has a capital or digit. */
  predicate IsCandidate(text: string) {
    var c := Clean(text);
    !HasCjk(c) && MatchesPlatePattern(c) && HasPlateChar(c)
  }

  /** The three tests amount to one: the cleaned text is 3 to 8 capitals and digits. The
      CJK and capital-or-digit tests can never reject a text the pattern accepts. */
  lemma CandidateIffPlateShape(text: string)
    ensures IsCandidate(text) <==>
      var c := Clean(text);
      3 <= |c| <= 8 && forall k :: 0 <= k < |c| ==> IsPlateChar(c[k])
  {
    var r := RemoveSpaces(text);
    var c := Clean(text);
    forall k | 0 <= k < |c| ensures !JsText.IsJsSpace(c[k]) {
      assert !JsText.IsJsSpace(r[k]);
    }
    if forall k :: 0 <= k < |c| ==> IsPlateChar(c[k]) {
      JsText.JsLengthBmp(c);
      if |c| >= 3 { assert IsPlateChar(c[0]); }
    }
    if MatchesPlatePattern(c) {
      assert forall k :: 0 <= k < |c| ==> IsPlateChar(c[k]);
      JsText.JsLengthBmp(c);
    }
  }

  /** `plateTexts`: the OCR lines kept as candidates, in order. */
  function Candidates(texts: seq<string>): (r: seq<string>)
    ensures forall k :: 0 <= k < |r| ==> IsCandidate(r[k]) && r[k] in texts
    ensures forall k :: 0 <= k < |texts| && IsCandidate(texts[k]) ==> texts[k] in r
    ensures Seqs.IsSubsequence(r, texts)
    ensures forall k :: 0 <= k < |texts| ==>
      multiset(r)[texts[k]] == if IsCandidate(texts[k]) then multiset(texts)[texts[k]] else 0
  {
    Seqs.FilterIsSubsequence(texts, IsCandidate);
    Seqs.FilterCounts(texts, IsCandidate);
    Seqs.Filter(texts, IsCandidate)
  }

  /** The step of `reduce((a, b) => (a.length > b.length ? a : b))`. */
  function Longer(a: string, b: string): string {
    if JsText.JsLength(a) > JsText.JsLength(b) then a else b
  }

  /** `texts.reduce(Longer)` (no initial value, so the list must not be empty). */
  function Best(texts: seq<string>): (b: string)
    requires |texts| > 0
    ensures b in texts
    ensures forall j :: 0 <= j < |texts| ==> JsText.JsLength(texts[j]) <= JsText.JsLength(b)
  {
    if |texts| == 1 then texts[0] else Longer(Best(texts[..|texts| - 1]), texts[|texts| - 1])
  }

  /** `Best` is at position `i`: no text is longer, and every later text is shorter. */
  predicate LastLongestAt(texts: seq<string>, i: int) {
    0 <= i < |texts| &&
    (forall j :: 0 <= j < |texts| ==> JsText.JsLength(texts[j]) <= JsText.JsLength(texts[i])) &&
    (forall j :: i < j < |texts| ==> JsText.JsLength(texts[j]) < JsText.JsLength(texts[i]))
  }

  /** The reducer keeps the earlier text only when it is strictly longer, so it picks the
      LAST of the longest texts (by UTF-16 length of the raw text). */
  lemma {:induction false} BestIsLastLongest(texts: seq<string>)
    requires |texts| > 0
    ensures exists i :: LastLongestAt(texts, i) && Best(texts) == texts[i]
  {
    var n := |texts|;
    if n == 1 {
      assert LastLongestAt(texts, 0);
    } else {
      var pre := texts[..n - 1];
      BestIsLastLongest(pre);
      var i :| LastLongestAt(pre, i) && Best(pre) == pre[i];
      var k := LongestStep(texts, i);
      assert LastLongestAt(texts, k) && Best(texts) == texts[k];
    }
  }

  /** One step of the reduction: the last-longest position after appending one more text. */
  lemma LongestStep(texts: seq<string>, i: int) returns (k: int)
    requires |texts| > 1 && LastLongestAt(texts[..|texts| - 1], i)
    ensures LastLongestAt(texts, k) && Longer(texts[i], texts[|texts| - 1]) == texts[k]
  {
    var n := |texts|;
    var pre := texts[..n - 1];
    assert pre[i] == texts[i];
    var last := texts[n - 1];
    if JsText.JsLength(texts[i]) > JsText.JsLength(last) {
      k := i;
      forall j | 0 <= j < n ensures JsText.JsLength(texts[j]) <= JsText.JsLength(texts[i]) &&
        (i < j ==> JsText.JsLength(texts[j]) < JsText.JsLength(texts[i]))
      {
        if j < n - 1 { assert texts[j] == pre[j]; }
      }
    } else {
      k := n - 1;
      forall j | 0 <= j < n ensures JsText.JsLength(texts[j]) <= JsText.JsLength(last) {
        if j < n - 1 { assert texts[j] == pre[j]; }
      }
    }
  }

  const NoPlateMessage := "未识别到车牌，请确保图片清晰且包含车牌"
  const ImageFormatMessage := "图片格式错误，请上传有效的图片文件"
  const TargetNotFoundCode := 282103
  const ImageFormatCode := 216201

  /** One entry of the plate OCR's `words_result`. */
  datatype PlateWord = PlateWord(number: string, color: Option<string>)

  /** The plate OCR's answer: `error_code`, `error_msg` and `words_result`, each possibly absent. */
  datatype PlateAnswer = PlateAnswer(errorCode: Option<int>, errorMsg: Option<string>, wordsResult: Option<seq<PlateWord>>)

  /** The general OCR's answer: the `words` of its `words_result`, if present. */
  datatype GeneralAnswer = GeneralAnswer(wordsResult: Option<seq<string>>)

  datatype Recognition =
    | Recognized(plateNumber: string, color: string, generalOcr: bool)
    | NotRecognized(error: string, errorCode: Option<int>)
    /** `simulateRecognition()`: a random mock plate after a delay. */
    | Simulated

  /** The general-OCR fallback after error 282103 (lines 117-175). */
  function FromGeneral(g: GeneralAnswer): (r: Recognition)
    ensures r.Recognized? <==> g.wordsResult.Some? && |Candidates(g.wordsResult.value)| > 0
    ensures r.Recognized? ==>
      r.generalOcr && r.color == "unknown" && IsCandidate(r.plateNumber) && r.plateNumber in g.wordsResult.value
    ensures !r.Recognized? ==> r == NotRecognized(NoPlateMessage, Some(TargetNotFoundCode))
  {
    if g.wordsResult.Some? && |g.wordsResult.value| > 0 && |Candidates(g.wordsResult.value)| > 0 then
      Recognized(Best(Candidates(g.wordsResult.value)), "unknown", true)
    else NotRecognized(NoPlateMessage, Some(TargetNotFoundCode))
  }

  /** `${x}` for a possibly absent string. */
  function Interpolate(s: Option<string>): string {
    if s.Some? then s.value else "undefined"
  }

  /** Lines 178-210: the plate OCR's answer when it is not error 282103. */
  function FromPlate(a: PlateAnswer): (r: Recognition)
    ensures !r.Simulated?
    ensures r.Recognized? ==>
      !r.generalOcr && r.color != "" && a.wordsResult.Some? && |a.wordsResult.value| > 0 &&
      r.plateNumber == a.wordsResult.value[0].number
    ensures r.NotRecognized? && r.errorCode.Some? ==> r.errorCode == a.errorCode && a.errorCode != Some(0)
  {
    if a.errorCode.Some? && a.errorCode.value != 0 then
      if a.errorCode.value == ImageFormatCode then NotRecognized(ImageFormatMessage, a.errorCode)
      else NotRecognized("识别失败: " + Interpolate(a.errorMsg), a.errorCode)
    else if a.wordsResult.Some? && |a.wordsResult.value| > 0 then
      var w := a.wordsResult.value[0];
      Recognized(w.number, if w.color.Some? && w.color.value != "" then w.color.value else "unknown", false)
    else NotRecognized(NoPlateMessage, None)
  }

  /** `recognizeLicensePlate`. `token` is what `getAccessToken` returned; `plate` and
      `general` are the two services' answers, None when the request threw (the
      general answer is read only after error 282103). */
  function Recognize(useMock: bool, token: Option<string>, plate: Option<PlateAnswer>, general: Option<GeneralAnswer>): (r: Recognition)
    ensures useMock || token.None? || token == Some("") || plate.None? ==> r == Simulated
    ensures r.Recognized? ==> r.color != "" && (r.generalOcr <==> plate.value.errorCode == Some(TargetNotFoundCode))
    ensures r.Simulated? && !useMock && token.Some? && token != Some("") && plate.Some? ==>
      plate.value.errorCode == Some(TargetNotFoundCode) && general.None?
  {
    if useMock || token.None? || token.value == "" || plate.None? then Simulated
    else if plate.value.errorCode == Some(TargetNotFoundCode) then
      if general.None? then Simulated else FromGeneral(general.value)
    else FromPlate(plate.value)
  }

  /** The general OCR is consulted only after error 282103; a plate it finds is the last
      longest candidate line and is reported with color 'unknown'; otherwise the result
      is the no-plate failure with code 282103. */
  lemma GeneralFallback(token: string, a: PlateAnswer, general: Option<GeneralAnswer>)
    requires token != ""
    ensures var r := Recognize(false, Some(token), Some(a), general);
      (r.Recognized? && r.generalOcr ==> a.errorCode == Some(TargetNotFoundCode)) &&
      (a.errorCode == Some(TargetNotFoundCode) && general.Some? ==>
        (r.Recognized? || r == NotRecognized(NoPlateMessage, Some(TargetNotFoundCode))) &&
        (r.Recognized? ==> (r.generalOcr && r.color == "unknown" &&
          exists ws :: general.value.wordsResult == Some(ws) && IsCandidate(r.plateNumber) && r.plateNumber in ws &&
            exists i :: LastLongestAt(Candidates(ws), i) && r.plateNumber == Candidates(ws)[i])))
  {
    var r := Recognize(false, Some(token), Some(a), general);
    if a.errorCode == Some(TargetNotFoundCode) && general.Some? {
      assert r == FromGeneral(general.value);
      if r.Recognized? {
        FallbackIsLastLongest(general.value);
      }
    }
  }

  /** A plate the general OCR yields is the last longest of its candidate lines. */
  lemma FallbackIsLastLongest(g: GeneralAnswer)
    requires FromGeneral(g).Recognized?
    ensures exists ws :: g.wordsResult == Some(ws) && exists i ::
              LastLongestAt(Candidates(ws), i) && FromGeneral(g).plateNumber == Candidates(ws)[i]
  {
    var ws := g.wordsResult.value;
    BestIsLastLongest(Candidates(ws));
  }

  /** Error codes other than 282103 are failures that carry the code: 216201 with the
      image-format message, any other with the service's message. */
  lemma ErrorCodesFail(token: string, a: PlateAnswer, general: Option<GeneralAnswer>)
    requires token != "" && a.errorCode.Some? && a.errorCode.value != 0 && a.errorCode.value != TargetNotFoundCode
    ensures var r := Recognize(false, Some(token), Some(a), general);
      r.NotRecognized? && r.errorCode == a.errorCode &&
      (r.error == ImageFormatMessage <==> a.errorCode.value == ImageFormatCode)
  {
    var r := Recognize(false, Some(token), Some(a), general);
    if a.errorCode.value != ImageFormatCode {
      assert r.error[0] == '识';
      assert ImageFormatMessage[0] == '图';
    }
  }

  /** Without an error code the first plate entry wins, with its color or 'unknown'; an
      empty or absent list is the no-plate failure without a code. */
  lemma PlateAnswerWithoutError(token: string, a: PlateAnswer, general: Option<GeneralAnswer>)
    requires token != "" && (a.errorCode.None? || a.errorCode == Some(0))
    ensures var r := Recognize(false, Some(token), Some(a), general);
      (a.wordsResult.Some? && |a.wordsResult.value| > 0 ==>
        r.Recognized? && !r.generalOcr && r.plateNumber == a.wordsResult.value[0].number &&
        r.color != "" && (a.wordsResult.value[0].color.Some? && a.wordsResult.value[0].color.value != "" ==>
          r.color == a.wordsResult.value[0].color.value)) &&
      (a.wordsResult.None? || |a.wordsResult.value| == 0 ==> r == NotRecognized(NoPlateMessage, None))
  {
  }

  /** Baidu tokens last 30 days; the cache refreshes after 29. */
  const TokenLifetime := 29 * 24 * 60 * 60 * 1000

  /** `isTokenExpired` at time `now`: an expiry is set (and not 0) and `now` is past it. */
  predicate Expired(tokenExpiry: Option<int>, now: int) {
    tokenExpiry.Some? && tokenExpiry.value != 0 && now > tokenExpiry.value
  }

  /** The service's `accessToken`/`tokenExpiry` fields and `getAccessToken`. */
  class TokenCache {
    var accessToken: Option<string>
    var tokenExpiry: Option<int>

    constructor ()
      ensures accessToken == None && tokenExpiry == None
    {
      accessToken := None;
      tokenExpiry := None;
    }

    predicate IsTokenExpired(now: int)
      reads this
    {
      Expired(tokenExpiry, now)
    }

    /** `getAccessToken` at time `now`. `fetched` is the `access_token` the token endpoint
        returned, None when it returned none or the request threw; `fetchedAt` is the
        clock reading taken after the awaited request. */
    method GetAccessToken(now: int, useMock: bool, fetched: Option<string>, fetchedAt: int) returns (token: Option<string>)
      modifies this
      ensures var cached := old(accessToken).Some? && old(accessToken).value != "" && !Expired(old(tokenExpiry), now);
        (cached ==> token == old(accessToken) && accessToken == old(accessToken) && tokenExpiry == old(tokenExpiry)) &&
        (!cached && (useMock || fetched.None? || fetched.value == "") ==>
          token.None? && accessToken == old(accessToken) && tokenExpiry == old(tokenExpiry)) &&
        (!cached && !useMock && fetched.Some? && fetched.value != "" ==>
          token == fetched && accessToken == fetched && tokenExpiry == Some(fetchedAt + TokenLifetime))
    {
      if accessToken.Some? && accessToken.value != "" && !IsTokenExpired(now) {
        return accessToken;
      }
      if useMock {
        return None;
      }
      if fetched.Some? && fetched.value != "" {
        accessToken := fetched;
        tokenExpiry := Some(fetchedAt + TokenLifetime);
        return accessToken;
      }
      return None;
    }
  }

  /** A token fetched at `now` is served from the cache until `now + TokenLifetime`
      included, and is refetched at any later time. */
  lemma FreshTokenLifetime(now: int, t: int)
    requires now >= 0
    ensures !Expired(Some(now + TokenLifetime), t) <==> t <= now + TokenLifetime
  {
  }
}
