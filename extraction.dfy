/**
 * Lead extraction from a conversation transcript (utils/extraction.py): assembling the
 * transcript from the conversation's messages, the two regular-expression extractors for a
 * name and an email address, and the pipeline that sends the lead to the webhook and stores it.
 *
 * Each regular expression is specified by the set of ways it can match (a predicate over the
 * positions of its pieces) and by the choice Python's backtracking `re.search` makes among them:
 * the leftmost start, then the first alternative, then the longest run for each quantifier
 * from left to right.  A scanner computes that choice, and lemmas prove it is the one specified.
 */
module Extraction {
  import opened Wrappers
  import opened Text
  import opened Json
  import opened Http
  import Api
  import Webhook
  import Database

  // ================================================================ transcript assembly

  /** The keys a message may carry its text under, in the order they are tried. */
  const TextKeys: seq<string> := ["text", "content", "message", "transcript"]

  /** `msg.get(keys[0]) or msg.get(keys[1]) or ...`: the first truthy value, if any. */
  function FirstTruthy(fields: seq<(string, Value)>, keys: seq<string>): (r: Option<Value>)
    ensures r.Some? ==> PyTruthy(r.value) && exists key :: key in keys && PyGet(fields, key) == r.value
    ensures r.None? <==> forall key :: key in keys ==> !PyTruthy(PyGet(fields, key))
  {
    if keys == [] then None
    else if PyTruthy(PyGet(fields, keys[0])) then Some(PyGet(fields, keys[0]))
    else FirstTruthy(fields, keys[1..])
  }

  /** The keys are tried in order: the value found is under the first key whose value is truthy. */
  lemma {:induction false} FirstTruthyInOrder(fields: seq<(string, Value)>, keys: seq<string>)
    ensures var r := FirstTruthy(fields, keys);
            r.Some? ==> exists n :: 0 <= n < |keys| && r.value == PyGet(fields, keys[n])
                                    && forall m :: 0 <= m < n ==> !PyTruthy(PyGet(fields, keys[m]))
  {
    if keys != [] && !PyTruthy(PyGet(fields, keys[0])) {
      FirstTruthyInOrder(fields, keys[1..]);
      var r := FirstTruthy(fields, keys);
      if r.Some? {
        var n :| 0 <= n < |keys| - 1 && r.value == PyGet(fields, keys[1..][n])
                 && forall m :: 0 <= m < n ==> !PyTruthy(PyGet(fields, keys[1..][m]));
        assert forall m :: 0 <= m < n + 1 ==> !PyTruthy(PyGet(fields, keys[m])) by {
          forall m | 0 < m < n + 1 ensures !PyTruthy(PyGet(fields, keys[m])) {
            assert keys[m] == keys[1..][m - 1];
          }
        }
      }
    } else if keys != [] {
      assert FirstTruthy(fields, keys).value == PyGet(fields, keys[0]);
    }
  }

  /** The text one message contributes: `str()` of its first truthy text field. */
  function MessageText(fields: seq<(string, Value)>): Option<string> {
    match FirstTruthy(fields, TextKeys)
    case Some(v) => Some(PyStr(v))
    case None => None
  }

  function Contribution(msg: Value): seq<string>
    requires msg.Obj?
  {
    match MessageText(msg.fields)
    case Some(t) => [t]
    case None => []
  }

  predicate AllDicts(messages: seq<Value>) {
    forall k :: 0 <= k < |messages| ==> messages[k].Obj?
  }

  /** The texts of the messages that have one, in message order. */
  function Contributions(messages: seq<Value>): seq<string>
    requires AllDicts(messages)
  {
    if messages == [] then []
    else Contributions(messages[..|messages| - 1]) + Contribution(messages[|messages| - 1])
  }

  /** Why the message list could not be read: iterating it raises in Python. */
  datatype AssembleError =
    | MessagesNotIterable   // a number or boolean: `TypeError`
    | MessageNotADict       // an element (or, for a dict or string, a key or character) has no `.get`

  /** The transcript `extract_transcript_text` builds from the fetched message value. */
  function TranscriptOf(messages: Value): Result<string, AssembleError> {
    if !PyTruthy(messages) then Ok("")
    else if messages.Num? || messages.Bool? then Err(MessagesNotIterable)
    else if !messages.Arr? || !AllDicts(messages.items) then Err(MessageNotADict)
    else Ok(Join("\n", Contributions(messages.items)))
  }

  /** The assembly loop of `extract_transcript_text`. */
  method AssembleTranscript(messages: Value) returns (r: Result<string, AssembleError>)
    ensures r == TranscriptOf(messages)
  {
    if !PyTruthy(messages) {
      return Ok("");
    }
    if messages.Num? || messages.Bool? {
      return Err(MessagesNotIterable);
    }
    if !messages.Arr? {
      return Err(MessageNotADict);
    }
    var items := messages.items;
    var parts: seq<string> := [];
    var i := 0;
    while i < |items|
      invariant 0 <= i <= |items|
      invariant AllDicts(items[..i])
      invariant parts == Contributions(items[..i])
    {
      if !items[i].Obj? {
        return Err(MessageNotADict);
      }
      ContributionsStep(items, i);
      match MessageText(items[i].fields) {
        case Some(t) => parts := parts + [t];
        case None =>
      }
      i := i + 1;
    }
    assert items[..i] == items;
    return Ok(Join("\n", parts));
  }

  /** One more message extends the contributions by its own. */
  lemma ContributionsStep(items: seq<Value>, i: nat)
    requires i < |items| && AllDicts(items[..i]) && items[i].Obj?
    ensures AllDicts(items[..i + 1])
    ensures Contributions(items[..i + 1]) == Contributions(items[..i]) + Contribution(items[i])
  {
    assert items[..i + 1][..i] == items[..i];
  }

  /** Every contributed text is non-empty. */
  lemma {:induction false} ContributionsNonEmpty(messages: seq<Value>)
    requires AllDicts(messages)
    ensures forall k :: 0 <= k < |Contributions(messages)| ==> Contributions(messages)[k] != ""
  {
    if messages != [] {
      ContributionsNonEmpty(messages[..|messages| - 1]);
    }
  }

  /** Contributions follow message order: the texts of a concatenation are concatenated. */
  lemma {:induction false} ContributionsAppend(xs: seq<Value>, ys: seq<Value>)
    requires AllDicts(xs) && AllDicts(ys)
    ensures AllDicts(xs + ys)
    ensures Contributions(xs + ys) == Contributions(xs) + Contributions(ys)
    decreases |ys|
  {
    if ys != [] {
      var ys' := ys[..|ys| - 1];
      assert (xs + ys)[..|xs + ys| - 1] == xs + ys';
      ContributionsAppend(xs, ys');
    } else {
      assert xs + ys == xs;
    }
  }

  /** No message contributes exactly when every message lacks a truthy text field. */
  lemma {:induction false} ContributionsEmptyIff(messages: seq<Value>)
    requires AllDicts(messages)
    ensures Contributions(messages) == [] <==>
              forall k :: 0 <= k < |messages| ==> MessageText(messages[k].fields).None?
  {
    if messages != [] {
      var init := messages[..|messages| - 1];
      var last := messages[|messages| - 1];
      ContributionsEmptyIff(init);
      ContributionsLast(messages);
      ContributionNone(last);
      assert Contributions(messages) == [] <==> Contributions(init) == [] && Contribution(last) == [];
      assert forall k :: 0 <= k < |init| ==> init[k] == messages[k];
      assert (forall k :: 0 <= k < |messages| ==> MessageText(messages[k].fields).None?) <==>
             (forall k :: 0 <= k < |init| ==> MessageText(init[k].fields).None?) && MessageText(last.fields).None?;
    }
  }

  /** The contributions of a non-empty list are those before its last message, then the last one's. */
  lemma ContributionsLast(messages: seq<Value>)
    requires AllDicts(messages) && messages != []
    ensures AllDicts(messages[..|messages| - 1])
    ensures Contributions(messages) == Contributions(messages[..|messages| - 1]) + Contribution(messages[|messages| - 1])
  {
  }

  /** A message contributes nothing exactly when it has no text. */
  lemma ContributionNone(msg: Value)
    requires msg.Obj?
    ensures Contribution(msg) == [] <==> MessageText(msg.fields).None?
  {
  }

  lemma {:induction false} JoinOfNonEmptyParts(sep: string, parts: seq<string>)
    requires forall k :: 0 <= k < |parts| ==> parts[k] != ""
    ensures Join(sep, parts) == "" <==> parts == []
  {
    if |parts| > 1 {
      assert |Join(sep, parts)| >= |parts[0]|;
    }
  }

  /**
   * A transcript assembled from a list of dicts is empty exactly when no message has a
   * truthy `text`, `content`, `message` or `transcript` value.
   */
  lemma TranscriptEmptyIff(items: seq<Value>)
    requires AllDicts(items)
    ensures TranscriptOf(Arr(items)) == Ok("") <==>
              forall k :: 0 <= k < |items| ==> MessageText(items[k].fields).None?
  {
    ContributionsNonEmpty(items);
    ContributionsEmptyIff(items);
    JoinOfNonEmptyParts("\n", Contributions(items));
  }

  /** The transcript of two message lists is the first's, a newline, and the second's. */
  lemma TranscriptConcat(xs: seq<Value>, ys: seq<Value>)
    requires AllDicts(xs) && AllDicts(ys)
    requires Contributions(xs) != [] && Contributions(ys) != []
    ensures AllDicts(xs + ys)
    ensures TranscriptOf(Arr(xs + ys)) ==
              Ok(Join("\n", Contributions(xs)) + "\n" + Join("\n", Contributions(ys)))
  {
    ContributionsAppend(xs, ys);
    var whole := Arr(xs + ys);
    assert PyTruthy(whole) && whole.Arr? && AllDicts(whole.items);
    assert TranscriptOf(whole) == Ok(Join("\n", Contributions(xs) + Contributions(ys)));
    JoinAppend("\n", Contributions(xs), Contributions(ys));
  }

  lemma {:induction false} JoinAppend(sep: string, ps: seq<string>, qs: seq<string>)
    requires ps != [] && qs != []
    ensures Join(sep, ps + qs) == Join(sep, ps) + sep + Join(sep, qs)
  {
    if |ps| == 1 {
      assert (ps + qs)[1..] == qs;
    } else {
      assert (ps + qs)[1..] == ps[1..] + qs;
      JoinAppend(sep, ps[1..], qs);
    }
  }

  // ================================================================ the name extractor

  /** `(?:my name is|i'm|i am)`: the alternation of the first name pattern, in order. */
  const NameCues: seq<string> := ["my name is", "i'm", "i am"]

  /** `(?:this is|call me)`: the alternation of the second name pattern, in order. */
  const AltNameCues: seq<string> := ["this is", "call me"]

  /** `[a-zA-Z\s]`. */
  predicate IsNameChar(c: char) {
    IsLetter(c) || IsSpace(c)
  }

  /** The lower-case `cue` occurs at `i` of `s` when compared case-insensitively. */
  predicate CueAt(s: string, cue: string, i: int) {
    0 <= i && i + |cue| <= |s| && forall m :: 0 <= m < |cue| ==> LowerChar(s[i + m]) == cue[m]
  }

  /** `cue\s+([a-zA-Z\s]+)` matches at `i` with `\s+` over [i + |cue|, j) and the group over [j, k). */
  predicate IsCueMatch(s: string, cue: string, i: int, j: int, k: int) {
    CueAt(s, cue, i) && i + |cue| < j < k <= |s|
    && (forall m :: i + |cue| <= m < j ==> IsSpace(s[m]))
    && (forall m :: j <= m < k ==> IsNameChar(s[m]))
  }

  /** Of the matches of one alternative at `i`, backtracking keeps the longest `\s+`, then the longest group. */
  ghost predicate IsPreferredCueMatch(s: string, cue: string, i: int, j: int, k: int) {
    IsCueMatch(s, cue, i, j, k)
    && (forall j', k' :: IsCueMatch(s, cue, i, j', k') ==> j' <= j)
    && (forall k' :: IsCueMatch(s, cue, i, j, k') ==> k' <= k)
  }

  /** The whole pattern matches at `i` through alternative `c`. */
  predicate IsNameMatch(s: string, cues: seq<string>, i: int, c: int, j: int, k: int) {
    0 <= c < |cues| && IsCueMatch(s, cues[c], i, j, k)
  }

  /** The match Python picks at `i`: the first alternative that matches at all, then as above. */
  ghost predicate IsPreferredNameMatch(s: string, cues: seq<string>, i: int, c: int, j: int, k: int) {
    0 <= c < |cues| && IsPreferredCueMatch(s, cues[c], i, j, k)
    && forall c', j', k' :: 0 <= c' < c ==> !IsNameMatch(s, cues, i, c', j', k')
  }

  /** `re.search`: the preferred match at the leftmost position where the pattern matches. */
  ghost predicate IsNameSearchResult(s: string, cues: seq<string>, i: int, c: int, j: int, k: int) {
    IsPreferredNameMatch(s, cues, i, c, j, k)
    && forall i', c', j', k' :: 0 <= i' < i ==> !IsNameMatch(s, cues, i', c', j', k')
  }

  /** `re.search` finds nothing. */
  ghost predicate NoNameMatch(s: string, cues: seq<string>) {
    forall i, c, j, k :: !IsNameMatch(s, cues, i, c, j, k)
  }

  /** The scanner for one alternative at `i`: the bounds of the group, if it matches. */
  function MatchCue(s: string, cue: string, i: nat): (r: Option<(nat, nat)>)
    requires i <= |s|
    ensures r.Some? ==> IsCueMatch(s, cue, i, r.value.0, r.value.1)
  {
    if !CueAt(s, cue, i) then None
    else
      var p := i + |cue|;
      var e := RunEnd(s, p, IsSpace);
      if e == p then None
      else if e < |s| && IsLetter(s[e]) then Some((e, RunEnd(s, e, IsNameChar)))
      else if e - p >= 2 then Some((e - 1, e))   // `\s+` gives its last blank back to the group
      else None
  }

  lemma MatchCueCorrect(s: string, cue: string, i: nat)
    requires i <= |s|
    ensures MatchCue(s, cue, i).Some? ==>
              IsPreferredCueMatch(s, cue, i, MatchCue(s, cue, i).value.0, MatchCue(s, cue, i).value.1)
    ensures MatchCue(s, cue, i).None? ==> forall j, k :: !IsCueMatch(s, cue, i, j, k)
  {
    if CueAt(s, cue, i) {
      var p := i + |cue|;
      var e := RunEnd(s, p, IsSpace);
      // every `\s+` run ends at or before e
      assert forall j, k :: IsCueMatch(s, cue, i, j, k) ==> j <= e;
      if e > p && e < |s| && IsLetter(s[e]) {
        var k := RunEnd(s, e, IsNameChar);
        assert IsCueMatch(s, cue, i, e, k);
        assert forall k' :: IsCueMatch(s, cue, i, e, k') ==> k' <= k;
      } else if e - p >= 2 {
        // `\s+` gives its last blank back to the group
        var j := e - 1;
        assert IsCueMatch(s, cue, i, j, e);
        assert forall k' :: IsCueMatch(s, cue, i, j, k') ==> k' <= e;
      }
    }
  }

  /** The first alternative, from `c` on, that matches at `i`. */
  function MatchAlternatives(s: string, cues: seq<string>, i: nat, c: nat): (r: Option<(nat, nat, nat)>)
    requires i <= |s|
    ensures r.Some? ==> IsNameMatch(s, cues, i, r.value.0, r.value.1, r.value.2)
    decreases |cues| - c
  {
    if c >= |cues| then None
    else
      match MatchCue(s, cues[c], i)
      case Some((j, k)) => Some((c, j, k))
      case None => MatchAlternatives(s, cues, i, c + 1)
  }

  lemma {:induction false} MatchAlternativesCorrect(s: string, cues: seq<string>, i: nat, c: nat)
    requires i <= |s|
    ensures var r := MatchAlternatives(s, cues, i, c);
            r.Some? ==> c <= r.value.0 < |cues| && IsPreferredCueMatch(s, cues[r.value.0], i, r.value.1, r.value.2)
                        && forall c', j', k' :: c <= c' < r.value.0 ==> !IsNameMatch(s, cues, i, c', j', k')
    ensures MatchAlternatives(s, cues, i, c).None? ==>
              forall c', j', k' :: c <= c' ==> !IsNameMatch(s, cues, i, c', j', k')
    decreases |cues| - c
  {
    if c < |cues| {
      MatchCueCorrect(s, cues[c], i);
      if MatchCue(s, cues[c], i).None? {
        MatchAlternativesCorrect(s, cues, i, c + 1);
      }
    }
  }

  /** The scanner for `re.search`: the first position from `i` on where the pattern matches. */
  function SearchName(s: string, cues: seq<string>, i: nat): (r: Option<(nat, nat, nat, nat)>)
    requires i <= |s|
    ensures r.Some? ==> IsNameMatch(s, cues, r.value.0, r.value.1, r.value.2, r.value.3)
    decreases |s| - i
  {
    match MatchAlternatives(s, cues, i, 0)
    case Some((c, j, k)) => Some((i, c, j, k))
    case None => if i == |s| then None else SearchName(s, cues, i + 1)
  }

  lemma {:induction false} SearchNameCorrect(s: string, cues: seq<string>, from: nat)
    requires from <= |s|
    ensures var r := SearchName(s, cues, from);
            r.Some? ==> from <= r.value.0 && IsPreferredNameMatch(s, cues, r.value.0, r.value.1, r.value.2, r.value.3)
                        && forall i', c', j', k' :: from <= i' < r.value.0 ==> !IsNameMatch(s, cues, i', c', j', k')
    ensures SearchName(s, cues, from).None? ==>
              forall i', c', j', k' :: from <= i' ==> !IsNameMatch(s, cues, i', c', j', k')
    decreases |s| - from
  {
    MatchAlternativesCorrect(s, cues, from, 0);
    if MatchAlternatives(s, cues, from, 0).None? {
      if from == |s| {
        assert forall i', c', j', k' :: from <= i' ==> !IsNameMatch(s, cues, i', c', j', k');
      } else {
        SearchNameCorrect(s, cues, from + 1);
      }
    }
  }

  /** The scanner's result for the whole text is exactly the match `re.search` specifies. */
  lemma SearchNameIsSearchResult(s: string, cues: seq<string>)
    ensures var r := SearchName(s, cues, 0);
            r.Some? ==> IsNameSearchResult(s, cues, r.value.0, r.value.1, r.value.2, r.value.3)
    ensures SearchName(s, cues, 0).None? <==> NoNameMatch(s, cues)
  {
    SearchNameCorrect(s, cues, 0);
    var r := SearchName(s, cues, 0);
    if r.Some? {
      var x := r.value;
      assert IsPreferredCueMatch(s, cues[x.1], x.0, x.2, x.3);
      assert IsNameMatch(s, cues, x.0, x.1, x.2, x.3);
    }
  }

  /**
   * `extract_name`: `None` for an empty transcript; otherwise the stripped group of the first
   * pattern's search, and the second pattern is searched only when the first matches nowhere.
   */
  function ExtractName(t: string): (r: Option<string>)
    ensures t == "" ==> r == None
    ensures r.Some? ==> forall m :: 0 <= m < |r.value| ==> IsNameChar(r.value[m])
    ensures r.Some? && r.value != "" ==> !IsSpace(r.value[0]) && !IsSpace(r.value[|r.value| - 1])
  {
    if t == "" then None
    else
      match SearchName(t, NameCues, 0)
      case Some((i, c, j, k)) => Some(NameFromGroup(t, NameCues, i, c, j, k))
      case None =>
        match SearchName(t, AltNameCues, 0)
        case Some((i, c, j, k)) => Some(NameFromGroup(t, AltNameCues, i, c, j, k))
        case None => None
  }

  /** `group(1).strip()` for a match whose group [j, k) is made of letters and blanks. */
  function NameFromGroup(t: string, cues: seq<string>, i: int, c: int, j: int, k: int): (name: string)
    requires IsNameMatch(t, cues, i, c, j, k)
    ensures forall m :: 0 <= m < |name| ==> IsNameChar(name[m])
    ensures name != "" ==> !IsSpace(name[0]) && !IsSpace(name[|name| - 1])
  {
    var g := t[j..k];
    assert forall m :: 0 <= m < |g| ==> g[m] == t[j + m];
    Strip(g)
  }

  /** The first pattern decides whenever it matches anywhere in the text. */
  lemma ExtractNameFirstPattern(t: string, i: int, c: int, j: int, k: int)
    requires t != ""
    requires IsNameSearchResult(t, NameCues, i, c, j, k)
    ensures 0 <= j <= k <= |t|
    ensures forall m :: j <= m < k ==> IsNameChar(t[m])
    ensures ExtractName(t) == Some(NameFromGroup(t, NameCues, i, c, j, k))
  {
    SearchNameIsSearchResult(t, NameCues);
    assert IsNameMatch(t, NameCues, i, c, j, k);
    SearchResultUnique(t, NameCues, SearchName(t, NameCues, 0).value, (i, c, j, k));
  }

  /** The second pattern is used only when the first matches nowhere. */
  lemma ExtractNameSecondPattern(t: string, i: int, c: int, j: int, k: int)
    requires t != ""
    requires NoNameMatch(t, NameCues)
    requires IsNameSearchResult(t, AltNameCues, i, c, j, k)
    ensures 0 <= j <= k <= |t|
    ensures forall m :: j <= m < k ==> IsNameChar(t[m])
    ensures ExtractName(t) == Some(NameFromGroup(t, AltNameCues, i, c, j, k))
  {
    SearchNameIsSearchResult(t, NameCues);
    SearchNameIsSearchResult(t, AltNameCues);
    assert IsNameMatch(t, AltNameCues, i, c, j, k);
    SearchResultUnique(t, AltNameCues, SearchName(t, AltNameCues, 0).value, (i, c, j, k));
  }

  /** No name is found exactly when the text is empty or neither pattern matches anywhere. */
  lemma ExtractNameNone(t: string)
    ensures ExtractName(t) == None <==>
              t == "" || (NoNameMatch(t, NameCues) && NoNameMatch(t, AltNameCues))
  {
    SearchNameIsSearchResult(t, NameCues);
    SearchNameIsSearchResult(t, AltNameCues);
  }

  /** There is only one search result: the preference order is strict. */
  lemma SearchResultUnique(s: string, cues: seq<string>, x: (int, int, int, int), y: (int, int, int, int))
    requires IsNameSearchResult(s, cues, x.0, x.1, x.2, x.3)
    requires IsNameSearchResult(s, cues, y.0, y.1, y.2, y.3)
    ensures x == y
  {
    assert IsNameMatch(s, cues, x.0, x.1, x.2, x.3);
    assert IsNameMatch(s, cues, y.0, y.1, y.2, y.3);
    assert x.0 == y.0;
    assert x.1 == y.1;
    assert x.2 == y.2;
  }

  // ================================================================ the email extractor

  /** `[a-zA-Z0-9._%+-]`. */
  predicate IsLocalChar(c: char) {
    IsLetter(c) || IsDigit(c) || c == '.' || c == '_' || c == '%' || c == '+' || c == '-'
  }

  /** `[a-zA-Z0-9.-]`. */
  predicate IsDomainChar(c: char) {
    IsLetter(c) || IsDigit(c) || c == '.' || c == '-'
  }

  /**
   * `[a-zA-Z0-9._%+-]+@[a-zA-Z0-9.-]+\.[a-zA-Z]{2,}` matches s[i..t] with the local part over
   * [i, a), the `@` at a, the domain over (a, d), the `.` at d and the top-level label over (d, t).
   */
  predicate IsEmailMatch(s: string, i: int, a: int, d: int, t: int) {
    0 <= i < a && a + 1 < d && d + 2 < t <= |s|
    && (forall m :: i <= m < a ==> IsLocalChar(s[m]))
    && s[a] == '@'
    && (forall m :: a < m < d ==> IsDomainChar(s[m]))
    && s[d] == '.'
    && (forall m :: d < m < t ==> IsLetter(s[m]))
  }

  /** Of the matches at `i`, backtracking keeps the longest local part, then domain, then label. */
  ghost predicate IsPreferredEmailMatch(s: string, i: int, a: int, d: int, t: int) {
    IsEmailMatch(s, i, a, d, t)
    && (forall a', d', t' :: IsEmailMatch(s, i, a', d', t') ==> a' <= a)
    && (forall d', t' :: IsEmailMatch(s, i, a, d', t') ==> d' <= d)
    && (forall t' :: IsEmailMatch(s, i, a, d, t') ==> t' <= t)
  }

  /** `re.search`: the preferred match at the leftmost position where the pattern matches. */
  ghost predicate IsEmailSearchResult(s: string, i: int, a: int, d: int, t: int) {
    IsPreferredEmailMatch(s, i, a, d, t)
    && forall i', a', d', t' :: 0 <= i' < i ==> !IsEmailMatch(s, i', a', d', t')
  }

  ghost predicate NoEmailMatch(s: string) {
    forall i, a, d, t :: !IsEmailMatch(s, i, a, d, t)
  }

  /** A `.` at d followed by two letters: where `\.[a-zA-Z]{2,}` can start. */
  predicate TldDotAt(s: string, d: int) {
    0 <= d && d + 2 < |s| && s[d] == '.' && IsLetter(s[d + 1]) && IsLetter(s[d + 2])
  }

  /** The last position in [lo, hi) where a top-level label can start. */
  function LastTldDot(s: string, lo: nat, hi: nat): (r: Option<nat>)
    requires hi <= |s|
    ensures r.Some? ==> lo <= r.value < hi && TldDotAt(s, r.value)
    ensures r.Some? ==> forall m :: r.value < m < hi ==> !TldDotAt(s, m)
    ensures r.None? ==> forall m :: lo <= m < hi ==> !TldDotAt(s, m)
    decreases hi
  {
    if hi <= lo then None
    else if TldDotAt(s, hi - 1) then Some(hi - 1)
    else LastTldDot(s, lo, hi - 1)
  }

  /** The scanner at one position: the local part's end, the last dot and the label's end. */
  function EmailAt(s: string, i: nat): (r: Option<(nat, nat, nat)>)
    requires i <= |s|
    ensures r.Some? ==> IsEmailMatch(s, i, r.value.0, r.value.1, r.value.2)
  {
    var a := RunEnd(s, i, IsLocalChar);
    if a == i || a == |s| || s[a] != '@' then None
    else
      var e := RunEnd(s, a + 1, IsDomainChar);
      match LastTldDot(s, a + 2, e)
      case None => None
      case Some(d) => Some((a, d, RunEnd(s, d + 1, IsLetter)))
  }

  lemma EmailAtCorrect(s: string, i: nat)
    requires i <= |s|
    ensures EmailAt(s, i).Some? ==>
              IsPreferredEmailMatch(s, i, EmailAt(s, i).value.0, EmailAt(s, i).value.1, EmailAt(s, i).value.2)
    ensures EmailAt(s, i).None? ==> forall a, d, t :: !IsEmailMatch(s, i, a, d, t)
  {
    var a := RunEnd(s, i, IsLocalChar);
    EmailLocalPartEnd(s, i);
    if a > i && a < |s| && s[a] == '@' {
      var e := RunEnd(s, a + 1, IsDomainChar);
      EmailDotRange(s, i, a);
      match LastTldDot(s, a + 2, e)
      case None =>
      case Some(d) =>
        var t := RunEnd(s, d + 1, IsLetter);
        assert forall t' :: IsEmailMatch(s, i, a, d, t') ==> t' <= t;
    }
  }

  /** The local part of any match at `i` ends exactly where the run of local characters ends. */
  lemma EmailLocalPartEnd(s: string, i: nat)
    requires i <= |s|
    ensures forall a', d', t' :: IsEmailMatch(s, i, a', d', t') ==> a' == RunEnd(s, i, IsLocalChar)
  {
  }

  /** The dot of any match lies between the `@` and the end of the domain run, and starts a label. */
  lemma EmailDotRange(s: string, i: nat, a: nat)
    requires a < |s|
    ensures forall d', t' :: IsEmailMatch(s, i, a, d', t') ==>
              a + 2 <= d' < RunEnd(s, a + 1, IsDomainChar) && TldDotAt(s, d')
  {
  }

  /** The scanner for `re.search`. */
  function SearchEmail(s: string, i: nat): (r: Option<(nat, nat, nat, nat)>)
    requires i <= |s|
    ensures r.Some? ==> IsEmailMatch(s, r.value.0, r.value.1, r.value.2, r.value.3)
    decreases |s| - i
  {
    match EmailAt(s, i)
    case Some((a, d, t)) => Some((i, a, d, t))
    case None => if i == |s| then None else SearchEmail(s, i + 1)
  }

  lemma {:induction false} SearchEmailCorrect(s: string, from: nat)
    requires from <= |s|
    ensures var r := SearchEmail(s, from);
            r.Some? ==> from <= r.value.0 && IsPreferredEmailMatch(s, r.value.0, r.value.1, r.value.2, r.value.3)
                        && forall i', a', d', t' :: from <= i' < r.value.0 ==> !IsEmailMatch(s, i', a', d', t')
    ensures SearchEmail(s, from).None? ==>
              forall i', a', d', t' :: from <= i' ==> !IsEmailMatch(s, i', a', d', t')
    decreases |s| - from
  {
    EmailAtCorrect(s, from);
    if EmailAt(s, from).None? && from < |s| {
      SearchEmailCorrect(s, from + 1);
    }
  }

  /**
   * `extract_email`: `None` for an empty transcript, otherwise the text of the leftmost,
   * longest-local-part match, which holds one `@` and ends in a dot and two or more letters.
   */
  function ExtractEmail(t: string): (r: Option<string>)
    ensures t == "" ==> r == None
    ensures r.Some? ==> EmailShaped(r.value)
  {
    if t == "" then None
    else
      match SearchEmail(t, 0)
      case Some((i, a, d, e)) => Some(EmailText(t, i, a, d, e))
      case None => None
  }

  /** The local part, one `@`, a domain, a dot and a label of two or more letters. */
  ghost predicate EmailShaped(x: string) {
    exists a, d :: IsEmailMatch(x, 0, a, d, |x|) && forall m :: 0 <= m < |x| && x[m] == '@' ==> m == a
  }

  function EmailText(t: string, i: nat, a: nat, d: nat, e: nat): (x: string)
    requires IsEmailMatch(t, i, a, d, e)
    ensures EmailShaped(x)
  {
    var x := t[i..e];
    assert forall m :: 0 <= m < |x| ==> x[m] == t[i + m];
    assert IsEmailMatch(x, 0, a - i, d - i, |x|);
    x
  }

  /** The extracted address is the one `re.search` specifies. */
  lemma ExtractEmailMatchesSearch(t: string, i: int, a: int, d: int, e: int)
    requires t != ""
    requires IsEmailSearchResult(t, i, a, d, e)
    ensures ExtractEmail(t) == Some(t[i..e])
  {
    SearchEmailCorrect(t, 0);
    assert IsEmailMatch(t, i, a, d, e);
    var x := SearchEmail(t, 0).value;
    assert IsEmailMatch(t, x.0, x.1, x.2, x.3);
    assert x.0 == i;
    assert x.1 == a;
    assert x.2 == d;
  }

  /** No address is found exactly when the text is empty or the pattern matches nowhere. */
  lemma ExtractEmailNone(t: string)
    ensures ExtractEmail(t) == None <==> t == "" || NoEmailMatch(t)
  {
    SearchEmailCorrect(t, 0);
    if SearchEmail(t, 0).Some? {
      var x := SearchEmail(t, 0).value;
      assert IsEmailMatch(t, x.0, x.1, x.2, x.3);
    }
  }

  // ================================================================ the pipeline

  /** What `extract_info_and_send_webhook` returns for a processed conversation. */
  datatype LeadInfo = LeadInfo(name: Option<string>, email: Option<string>, transcript: string)

  /** An exception escaping the pipeline, by the step that raised it. */
  datatype PipelineError =
    | FetchFailed(api: Api.ApiError)
    | AssemblyFailed(assembly: AssembleError)
    | SaveFailed(db: Database.DbError)

  /** The effects of one run: the messages request, the webhook POST, and the outcome. */
  datatype Run = Run(fetch: Option<Api.Request>, notify: Option<Webhook.Post>, result: Result<Option<LeadInfo>, PipelineError>)

  /** `extract_transcript_text(conv_id)`: fetch the messages, then assemble them. */
  function TranscriptFor(apiKey: Option<string>, convId: Option<string>, messages: Exchange): Result<string, PipelineError> {
    match Api.GetConversationMessages(apiKey, convId, messages).result
    case Err(e) => Err(FetchFailed(e))
    case Ok(v) =>
      match TranscriptOf(v)
      case Err(e) => Err(AssemblyFailed(e))
      case Ok(t) => Ok(t)
  }

  /**
   * `extract_info_and_send_webhook`: a falsy id returns at once; otherwise the transcript is
   * fetched and assembled, the name and email are extracted from it, the webhook is notified
   * once, and then one lead is saved with the same name and email.  The webhook's verdict does
   * not change what follows; an exception from any step ends the run there.
   */
  method ExtractInfoAndSendWebhook(store: Database.LeadStore, apiKey: Option<string>, convId: Option<string>,
                                   messages: Exchange, webhookUrl: Option<string>, webhookOutcome: Exchange,
                                   notifyTime: string, saveTime: string) returns (run: Run)
    requires store.Valid()
    modifies store
    ensures store.Valid()
    ensures !Truthy(convId) ==> run == Run(None, None, Ok(None)) && unchanged(store)
    ensures Truthy(convId) ==> run.fetch == Api.GetConversationMessages(apiKey, convId, messages).sent
    ensures Truthy(convId) && TranscriptFor(apiKey, convId, messages).Err? ==>
              run.notify == None && run.result == Err(TranscriptFor(apiKey, convId, messages).error) && unchanged(store)
    ensures Truthy(convId) && TranscriptFor(apiKey, convId, messages).Ok? ==>
              var t := TranscriptFor(apiKey, convId, messages).value;
              var name := ExtractName(t);
              var email := ExtractEmail(t);
              run.notify == Webhook.SendToWebhook(webhookUrl, convId.value, name, email, t, notifyTime, webhookOutcome).post
              && (old(store.SelectError()).None? ==>
                    run.result == Ok(Some(LeadInfo(name, email, t)))
                    && store.rows == old(store.rows) + [Database.Lead(old(store.counter) + 1, convId.value, name, email, Some(saveTime))]
                    && store.counter == old(store.counter) + 1 && store.columns == old(store.columns))
              && (old(store.SelectError()).Some? ==>
                    run.result == Err(SaveFailed(old(store.SelectError()).value)) && unchanged(store))
  {
    if !Truthy(convId) {
      return Run(None, None, Ok(None));
    }
    var call := Api.GetConversationMessages(apiKey, convId, messages);
    if call.result.Err? {
      return Run(call.sent, None, Err(FetchFailed(call.result.error)));
    }
    var assembled := AssembleTranscript(call.result.value);
    if assembled.Err? {
      return Run(call.sent, None, Err(AssemblyFailed(assembled.error)));
    }
    var t := assembled.value;
    var name := ExtractName(t);
    var email := ExtractEmail(t);
    var delivery := Webhook.SendToWebhook(webhookUrl, convId.value, name, email, t, notifyTime, webhookOutcome);
    var saved := store.SaveLead(convId.value, name, email, saveTime);
    if saved.Err? {
      return Run(call.sent, delivery.post, Err(SaveFailed(saved.error)));
    }
    return Run(call.sent, delivery.post, Ok(Some(LeadInfo(name, email, t))));
  }

  /**
   * As written, a response that is the message list itself ends the run at the fetch: no webhook
   * is notified and no lead is saved.
   */
  lemma ListBodyStopsThePipeline(apiKey: Option<string>, convId: Option<string>, items: seq<Value>)
    requires Truthy(apiKey) && Truthy(convId)
    ensures TranscriptFor(apiKey, convId, Answered(Response(200, Some("application/json"), Some(Arr(items)))))
            == Err(FetchFailed(Api.BadShape))
  {
    Api.ListBodyRaisesAsWritten(apiKey, convId, items);
  }

  /**
   * With the corrected reading, a response that is the message list itself gives that list, and
   * its transcript is the messages' contributions, one per line.
   */
  lemma ListBodyTranscript(apiKey: Option<string>, convId: Option<string>, items: seq<Value>)
    requires Truthy(apiKey) && Truthy(convId)
    requires items != [] && AllDicts(items)
    ensures Api.GetConversationMessagesFixed(apiKey, convId, Answered(Response(200, Some("application/json"), Some(Arr(items))))).result
            == Ok(Arr(items))
    ensures TranscriptOf(Arr(items)) == Ok(Join("\n", Contributions(items)))
  {
  }

  // ================================================================ examples

  /** The group stops at the first character that is neither a letter nor a blank. */
  lemma NameExample() ensures ExtractName("I am Ann.") == Some("Ann") {
    var s := "I am Ann.";
    NameExampleSearch(s);
    NameExampleSlice(s);
  }

  lemma NameExampleSearch(s: string)
    requires s == "I am Ann."
    ensures SearchName(s, NameCues, 0) == Some((0, 2, 5, 8))
  {
    assert !CueAt(s, NameCues[0], 0);
    assert !CueAt(s, NameCues[1], 0) by { assert LowerChar(s[1]) != NameCues[1][1]; }
    assert CueAt(s, NameCues[2], 0);
    assert RunEnd(s, 5, IsSpace) == 5;
    assert RunEnd(s, 4, IsSpace) == 5;
    assert RunEnd(s, 8, IsNameChar) == 8;
    assert RunEnd(s, 5, IsNameChar) == 8;
    assert MatchCue(s, NameCues[2], 0) == Some((5, 8));
    assert MatchAlternatives(s, NameCues, 0, 0) == Some((2, 5, 8));
  }

  lemma NameExampleSlice(s: string)
    requires s == "I am Ann."
    ensures Strip(s[5..8]) == "Ann"
  {
    assert s[5..8] == "Ann";
  }

  /** A cue followed by two blanks and no letter yields an empty name, not `None`. */
  lemma BlankNameExample() ensures ExtractName("i am  .") == Some("") {
    var s := "i am  .";
    BlankNameExampleSearch(s);
    BlankNameExampleSlice(s);
  }

  lemma BlankNameExampleSearch(s: string)
    requires s == "i am  ."
    ensures SearchName(s, NameCues, 0) == Some((0, 2, 5, 6))
  {
    assert !CueAt(s, NameCues[0], 0);
    assert !CueAt(s, NameCues[1], 0) by { assert LowerChar(s[1]) != NameCues[1][1]; }
    assert CueAt(s, NameCues[2], 0);
    assert RunEnd(s, 6, IsSpace) == 6;
    assert RunEnd(s, 5, IsSpace) == 6;
    assert RunEnd(s, 4, IsSpace) == 6;
    assert MatchCue(s, NameCues[2], 0) == Some((5, 6));
    assert MatchAlternatives(s, NameCues, 0, 0) == Some((2, 5, 6));
  }

  lemma BlankNameExampleSlice(s: string)
    requires s == "i am  ."
    ensures Strip(s[5..6]) == ""
  {
    assert s[5..6] == " ";
  }

  /** The address starts at the leftmost position from which the pattern matches. */
  lemma EmailExample() ensures ExtractEmail("at a@b.io") == Some("a@b.io") {
    var s := "at a@b.io";
    EmailExampleSearch(s);
    EmailExampleSlice(s);
  }

  lemma EmailExampleSlice(s: string)
    requires s == "at a@b.io"
    ensures s[3..9] == "a@b.io"
  {
  }

  lemma EmailExampleSearch(s: string)
    requires s == "at a@b.io"
    ensures SearchEmail(s, 0) == Some((3, 4, 6, 9))
  {
    EmailExampleNoEarlierMatch(s);
    EmailExampleMatch(s);
    assert SearchEmail(s, 3) == Some((3, 4, 6, 9));
    assert SearchEmail(s, 2) == Some((3, 4, 6, 9));
    assert SearchEmail(s, 1) == Some((3, 4, 6, 9));
  }

  lemma EmailExampleNoEarlierMatch(s: string)
    requires s == "at a@b.io"
    ensures EmailAt(s, 0) == None && EmailAt(s, 1) == None && EmailAt(s, 2) == None
  {
    assert RunEnd(s, 2, IsLocalChar) == 2;
    assert RunEnd(s, 1, IsLocalChar) == 2;
    assert RunEnd(s, 0, IsLocalChar) == 2;
  }

  lemma EmailExampleMatch(s: string)
    requires s == "at a@b.io"
    ensures EmailAt(s, 3) == Some((4, 6, 9))
  {
    assert RunEnd(s, 4, IsLocalChar) == 4;
    assert RunEnd(s, 3, IsLocalChar) == 4;
    assert RunEnd(s, 9, IsDomainChar) == 9;
    assert RunEnd(s, 5, IsDomainChar) == 9;
    assert LastTldDot(s, 6, 9) == Some(6);
    assert RunEnd(s, 9, IsLetter) == 9;
    assert RunEnd(s, 7, IsLetter) == 9;
  }

}
