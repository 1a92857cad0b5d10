/** Classification and backoff (retry-policy.ts), and the delays they read (configuration.ts). */
module RetryPolicy {
  import Collections
  import opened DeliveryTypes

  datatype Outcome = Succeeded | Retryable | Permanent

  function ClassifyHttpStatus(status: int): Outcome {
    if 200 <= status < 300 then Succeeded
    else if status in {408, 429} then Retryable
    else if status >= 500 then Retryable
    else Permanent
  }

  function Classify(result: WebhookResult): Outcome {
    if !result.responded || result.httpStatus.None? then Retryable
    else ClassifyHttpStatus(result.httpStatus.value)
  }

  predicate IsExhausted(c: Config, attemptNumber: nat) {
    attemptNumber >= c.maxAttempts
  }

  /** An index outside the list reads `undefined`, which the source turns into 0. */
  function DelayAfterAttemptMs(delays: seq<int>, attemptNumber: int): int {
    if |delays| == 0 then 0
    else
      var index := if attemptNumber - 1 < |delays| - 1 then attemptNumber - 1 else |delays| - 1;
      if index < 0 then 0 else delays[index]
  }

  function NextAttemptAt(c: Config, attemptNumber: int, from: int): int {
    from + DelayAfterAttemptMs(c.delaysMs, attemptNumber)
  }

  // ---- what the classes of status mean -------------------------------------

  predicate Is2xx(status: int) { 200 <= status <= 299 }

  /** 408 (RFC 9110, section 15.5.9), 429 (RFC 6585, section 4) and every server error. */
  predicate AsksToTryAgain(status: int) { status == 408 || status == 429 || status >= 500 }

  /** An answer that is neither a success nor an invitation to try again. */
  predicate IsPermanentStatus(status: int) { !Is2xx(status) && !AsksToTryAgain(status) }

  /** The three outcomes partition the results, whatever the receiver does. */
  lemma ClassifyMeaning(result: WebhookResult)
    ensures Classify(result).Succeeded? <==>
            result.responded && result.httpStatus.Some? && Is2xx(result.httpStatus.value)
    ensures Classify(result).Permanent? <==>
            result.responded && result.httpStatus.Some? && IsPermanentStatus(result.httpStatus.value)
    ensures Classify(result).Retryable? <==>
            !result.responded || result.httpStatus.None? || AsksToTryAgain(result.httpStatus.value)
  {
  }

  // ---- readRetryDelays ------------------------------------------------------

  /** One comma separated piece of RETRY_DELAYS_MS after trimming. */
  datatype Piece = Blank | NotANumber | Number(ms: int)

  datatype Parsed = ConfigurationError | Delays(delays: seq<int>)

  function ParseList(pieces: seq<Piece>): Parsed {
    if pieces == [] then Delays([])
    else
      match pieces[0]
      case Blank => ParseList(pieces[1..])
      case NotANumber => ConfigurationError
      case Number(ms) =>
        if ms < 0 then ConfigurationError
        else
          match ParseList(pieces[1..])
          case ConfigurationError => ConfigurationError
          case Delays(rest) => Delays([ms] + rest)
  }

  /** The delays as written, before padding: the list when present, else the two named ones. */
  function RawDelays(list: Option<seq<Piece>>, delay1: int, delay2: int): Parsed {
    match list
    case Some(pieces) => ParseList(pieces)
    case None => Delays([delay1, delay2])
  }

  predicate IsRejected(piece: Piece) {
    piece.NotANumber? || (piece.Number? && piece.ms < 0)
  }

  /** A piece with a number in it, and how many of them come before position i. */
  predicate IsNumber(piece: Piece) { piece.Number? }

  function NumbersBefore(pieces: seq<Piece>, i: nat): nat
    requires i <= |pieces|
  {
    Collections.CountIf(pieces[..i], IsNumber)
  }

  /** The numbers among the pieces, in the order in which they are written; blanks leave no gap. */
  ghost predicate InWrittenOrder(pieces: seq<Piece>, numbers: seq<int>) {
    && |numbers| == NumbersBefore(pieces, |pieces|)
    && forall i :: 0 <= i < |pieces| && pieces[i].Number? ==>
         NumbersBefore(pieces, i) < |numbers| && numbers[NumbersBefore(pieces, i)] == pieces[i].ms
  }

  lemma NumbersBeforeCons(pieces: seq<Piece>, i: nat)
    requires i < |pieces|
    ensures NumbersBefore(pieces, i + 1) == NumbersBefore(pieces[1..], i) + if pieces[0].Number? then 1 else 0
  {
    Collections.CountIfCons(pieces[0], pieces[1..][..i], IsNumber);
    assert pieces[..i + 1] == [pieces[0]] + pieces[1..][..i];
  }

  lemma {:induction false} ParseListKeepsOrder(pieces: seq<Piece>)
    requires ParseList(pieces).Delays?
    ensures InWrittenOrder(pieces, ParseList(pieces).delays)
  {
    if pieces != [] {
      var rest, numbers := pieces[1..], ParseList(pieces).delays;
      ParseListKeepsOrder(rest);
      NumbersBeforeCons(pieces, |rest|);
      forall i | 0 <= i < |pieces| && pieces[i].Number?
        ensures NumbersBefore(pieces, i) < |numbers| && numbers[NumbersBefore(pieces, i)] == pieces[i].ms
      {
        if i > 0 {
          NumbersBeforeCons(pieces, i - 1);
          assert pieces[i] == rest[i - 1];
        }
      }
    }
  }

  /** Reading position min(k-1, len-1) of the unpadded list, or 0 when it is empty. */
  function Clamped(raw: seq<int>, k: nat): int
    requires k >= 1
  {
    if raw == [] then 0 else if k <= |raw| then raw[k - 1] else raw[|raw| - 1]
  }

  method ReadRetryDelays(list: Option<seq<Piece>>, delay1: int, delay2: int, maxAttempts: int)
    returns (result: Parsed)
    ensures result.ConfigurationError? <==>
            list.Some? && exists i :: 0 <= i < |list.value| && IsRejected(list.value[i])
    ensures result.Delays? ==>
      && RawDelays(list, delay1, delay2).Delays?
      && |result.delays| == (if maxAttempts >= 1 then maxAttempts - 1 else 0)
      && forall k :: 1 <= k < maxAttempts ==>
           result.delays[k - 1] == Clamped(RawDelays(list, delay1, delay2).delays, k)
    ensures list.None? ==>
      && result.Delays?
      && forall j :: 0 <= j < |result.delays| ==> result.delays[j] == if j == 0 then delay1 else delay2
    ensures list.Some? && result.Delays? ==> exists numbers ::
      && InWrittenOrder(list.value, numbers)
      && forall j :: 0 <= j < |result.delays| ==>
           result.delays[j] == if numbers == [] then 0 else if j < |numbers| then numbers[j] else numbers[|numbers| - 1]
  {
    var raw := RawDelays(list, delay1, delay2);
    if list.Some? {
      ParseListRejects(list.value);
    }
    if raw.ConfigurationError? {
      return ConfigurationError;
    }
    if list.Some? {
      ParseListKeepsOrder(list.value);
    }
    var delays := raw.delays;
    var required := if maxAttempts - 1 > 0 then maxAttempts - 1 else 0;
    while |delays| < required
      invariant |raw.delays| <= |delays|
      invariant |delays| <= required || delays == raw.delays
      invariant forall k :: 1 <= k <= |delays| ==> delays[k - 1] == Clamped(raw.delays, k)
    {
      assert delays != [] ==> delays[|delays| - 1] == Clamped(raw.delays, |delays|);
      delays := delays + [if delays == [] then 0 else delays[|delays| - 1]];
    }
    result := Delays(delays[..required]);
    assert forall j :: 0 <= j < required ==> result.delays[j] == delays[(j + 1) - 1] == Clamped(raw.delays, j + 1);
  }

  /**
   * Padding refines clamping: any list `padded` built as ReadRetryDelays promises gives, through
   * delayAfterAttemptMs, the clamped reading of the unpadded list for every attempt that can be
   * followed by another.
   */
  lemma PaddingRefinesClamping(raw: seq<int>, padded: seq<int>, maxAttempts: nat, k: nat)
    requires |padded| == (if maxAttempts >= 1 then maxAttempts - 1 else 0)
    requires forall j :: 1 <= j < maxAttempts ==> padded[j - 1] == Clamped(raw, j)
    requires 1 <= k < maxAttempts
    ensures DelayAfterAttemptMs(padded, k) == DelayAfterAttemptMs(raw, k)
    ensures DelayAfterAttemptMs(padded, k) == if raw == [] then 0 else raw[(if k <= |raw| then k else |raw|) - 1]
  {
    assert padded[k - 1] == Clamped(raw, k);
  }

  /** The list is rejected exactly when some piece is not a number or is negative. */
  lemma {:induction false} ParseListRejects(pieces: seq<Piece>)
    ensures ParseList(pieces).ConfigurationError? <==>
            exists i :: 0 <= i < |pieces| && IsRejected(pieces[i])
  {
    if pieces != [] {
      ParseListRejects(pieces[1..]);
      var rest := pieces[1..];
      if i :| 0 <= i < |rest| && IsRejected(rest[i]) {
        assert pieces[i + 1] == rest[i];
      }
      if i :| 0 <= i < |pieces| && IsRejected(pieces[i]) {
        assert i > 0 ==> rest[i - 1] == pieces[i];
      }
    }
  }
}
