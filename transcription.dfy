/**
 * The speech-to-text service: a voice file within the size limit is posted to
 * the Whisper transcription endpoint, retrying on server errors and network
 * errors with a growing pause, and the recognised text is returned stripped.
 *
 * The HTTP session is the oracle `server`: `server(k)` is what the `k`-th
 * POST (counting from 0) gives. Pauses are not taken; the method returns the
 * lengths, in seconds, of the pauses it would take, in order.
 */
module Transcription {
  import opened Wrappers
  import opened Text
  import Config

  /** The API's limit on the size of an uploaded file: 25 MiB. */
  const MaxSize: int := 25 * 1024 * 1024
  const DefaultMaxRetries: int := 3

  const ServerErrorPrefix: string := "Ошибка OpenAI API: "
  const RecognitionErrorPrefix: string := "Ошибка распознавания речи: "
  const UnknownError: string := "Неизвестная ошибка"
  const GaveUpMessage: string := "Не удалось транскрибировать аудио после всех попыток"

  /** The `text` member of the JSON body of a successful reply. */
  datatype TextField =
    | Missing(error: Option<string>)  // no `text` member; the `error` member, if any
    | NullText                        // `text` is null
    | Text(s: string)

  /** What one POST gives. */
  datatype Reply =
    | Http(status: nat, body: string, field: TextField) // a response: its status, body text and decoded `text` member
    | ClientError(message: string)                        // an `aiohttp.ClientError`, including a body that is not JSON
    | OtherError(message: string)                         // any other exception

  /** An exception that leaves the transcription: an `aiohttp.ClientError`, or a plain exception. */
  datatype Error = NetworkError(message: string) | Raised(message: string)

  /** What the service does after one POST. */
  datatype Step =
    | Done(text: string)           // return the text
    | Retry(last: Error, wait: nat) // remember the error, pause `wait` seconds and try again
    | Raise(error: Error)          // give up with the error

  /** The outcome of attempt `attempt` (from 0) out of `maxRetries`, given its reply. */
  function AttemptStep(reply: Reply, attempt: nat, maxRetries: int): (s: Step)
    requires attempt < maxRetries
    ensures s.Retry? ==> attempt < maxRetries - 1 && s.wait == (attempt + 1) * 2
    ensures s.Retry? <==> attempt < maxRetries - 1 && (reply.ClientError? || (reply.Http? && reply.status >= 500))
    ensures s.Done? <==> reply.Http? && reply.status == 200 && !reply.field.Missing?
    ensures s.Done? ==> s.text == (if reply.field.Text? then Strip(reply.field.s) else [])
    ensures s.Raise? ==> (s.error.NetworkError? <==> reply.ClientError?)
    ensures s.Raise? && reply.ClientError? ==> s.error.message == reply.message
  {
    match reply
    case Http(status, body, field) =>
      if status != 200 then
        if status >= 500 && attempt < maxRetries - 1 then
          Retry(Raised(ServerErrorPrefix + Config.DecimalString(status)), (attempt + 1) * 2)
        else
          Raise(Raised(RecognitionErrorPrefix + body))
      else
        (match field
         case Missing(error) => Raise(Raised(RecognitionErrorPrefix + error.GetOr(UnknownError)))
         case NullText => Done("")
         case Text(s) => Done(Strip(s)))
    case ClientError(message) =>
      if attempt == maxRetries - 1 then Raise(NetworkError(message))
      else Retry(NetworkError(message), (attempt + 1) * 2)
    case OtherError(message) => Raise(Raised(message))
  }

  /** A run of the retry loop: its outcome, the pauses it took and the number of POSTs it made. */
  datatype Run = Run(outcome: Result<string, Error>, waits: seq<nat>, requests: nat)

  /** The retry loop from attempt `attempt` on, with `lastError` the error of the previous attempt. */
  function RunFrom(attempt: nat, maxRetries: int, server: nat -> Reply, lastError: Option<Error>): (run: Run)
    ensures run.requests <= (if attempt < maxRetries then maxRetries - attempt else 0)
    decreases maxRetries - attempt
  {
    if attempt >= maxRetries then
      Run(Failure(lastError.GetOr(Raised(GaveUpMessage))), [], 0)
    else
      match AttemptStep(server(attempt), attempt, maxRetries)
      case Done(text) => Run(Success(text), [], 1)
      case Raise(error) => Run(Failure(error), [], 1)
      case Retry(last, wait) =>
        var rest := RunFrom(attempt + 1, maxRetries, server, Some(last));
        Run(rest.outcome, [wait] + rest.waits, 1 + rest.requests)
  }

  /** `_transcribe_audio` as a whole. */
  function Transcribe(maxRetries: int, server: nat -> Reply): (run: Run)
    ensures run.requests <= (if maxRetries > 0 then maxRetries else 0)
    ensures run.outcome.Success? ==> run.requests >= 1
  {
    RunFrom(0, maxRetries, server, None)
  }

  /** Whether a reply is one the loop retries after: a network error or a server error. */
  predicate Transient(reply: Reply) {
    reply.ClientError? || (reply.Http? && reply.status >= 500)
  }

  /**
   * The loop from `attempt` on makes a request unless no attempt is left, and
   * pauses once after every request but the last.
   */
  lemma {:induction false} RunFromCounts(attempt: nat, maxRetries: int, server: nat -> Reply, lastError: Option<Error>)
    ensures var run := RunFrom(attempt, maxRetries, server, lastError);
      && (run.requests == 0 <==> attempt >= maxRetries)
      && |run.waits| == (if run.requests == 0 then 0 else run.requests - 1)
    decreases maxRetries - attempt
  {
    if attempt < maxRetries {
      var step := AttemptStep(server(attempt), attempt, maxRetries);
      if step.Retry? {
        RunFromCounts(attempt + 1, maxRetries, server, Some(step.last));
      }
    }
  }

  /**
   * The pause after attempt `attempt + k` lasts `2(attempt + k + 1)` seconds
   * and follows a network error or a server error.
   */
  lemma {:induction false} RunFromWaits(attempt: nat, maxRetries: int, server: nat -> Reply, lastError: Option<Error>)
    ensures forall k :: 0 <= k < |RunFrom(attempt, maxRetries, server, lastError).waits| ==>
      && RunFrom(attempt, maxRetries, server, lastError).waits[k] == (attempt + k + 1) * 2
      && Transient(server(attempt + k))
    decreases maxRetries - attempt
  {
    if attempt < maxRetries {
      var step := AttemptStep(server(attempt), attempt, maxRetries);
      if step.Retry? {
        var rest := RunFrom(attempt + 1, maxRetries, server, Some(step.last));
        RunFromWaits(attempt + 1, maxRetries, server, Some(step.last));
        var waits := [step.wait] + rest.waits;
        assert RunFrom(attempt, maxRetries, server, lastError).waits == waits;
        forall k | 0 <= k < |waits|
          ensures waits[k] == (attempt + k + 1) * 2 && Transient(server(attempt + k))
        {
          if k > 0 {
            var j := k - 1;
            assert 0 <= j < |rest.waits|;
            assert rest.waits[j] == (attempt + 1 + j + 1) * 2 && Transient(server(attempt + 1 + j));
            assert waits[k] == rest.waits[j];
            assert attempt + 1 + j == attempt + k;
          } else {
            assert waits[0] == step.wait == (attempt + 1) * 2;
            assert Transient(server(attempt));
          }
        }
      }
    }
  }

  /**
   * The default three attempts make at most three POSTs and pause 2 and then
   * 4 seconds between them, each pause after a server or network error.
   */
  lemma TranscribeSchedule(maxRetries: int, server: nat -> Reply)
    ensures var run := Transcribe(maxRetries, server);
      && run.requests <= (if maxRetries > 0 then maxRetries else 0)
      && (run.requests > 0 ==> |run.waits| == run.requests - 1)
      && forall k :: 0 <= k < |run.waits| ==> run.waits[k] == 2 * (k + 1) && Transient(server(k))
  {
    RunFromCounts(0, maxRetries, server, None);
    RunFromWaits(0, maxRetries, server, None);
    var waits := Transcribe(maxRetries, server).waits;
    forall k | 0 <= k < |waits| ensures waits[k] == 2 * (k + 1) && Transient(server(k)) {
      assert waits[k] == (0 + k + 1) * 2 && Transient(server(0 + k));
    }
  }

  /**
   * With at least one attempt the loop never runs out: the outcome is always
   * that of the last POST, so the remembered error is never re-raised after
   * the loop.
   */
  lemma {:induction false} RunFromEndsOnAnAttempt(attempt: nat, maxRetries: int, server: nat -> Reply, lastError: Option<Error>)
    requires attempt < maxRetries
    ensures var run := RunFrom(attempt, maxRetries, server, lastError);
      && run.requests >= 1
      && var step := AttemptStep(server(attempt + run.requests - 1), attempt + run.requests - 1, maxRetries);
      && !step.Retry?
      && run.outcome == (if step.Done? then Success(step.text) else Failure(step.error))
    decreases maxRetries - attempt
  {
    var step := AttemptStep(server(attempt), attempt, maxRetries);
    if step.Retry? {
      RunFromEndsOnAnAttempt(attempt + 1, maxRetries, server, Some(step.last));
      var rest := RunFrom(attempt + 1, maxRetries, server, Some(step.last));
      assert attempt + 1 + rest.requests - 1 == attempt + (1 + rest.requests) - 1;
    }
  }

  /** No attempt at all gives the generic failure without any request. */
  lemma TranscribeWithoutAttempts(maxRetries: int, server: nat -> Reply)
    requires maxRetries <= 0
    ensures Transcribe(maxRetries, server) == Run(Failure(Raised(GaveUpMessage)), [], 0)
  {
  }

  /** A recognised text never starts or ends with whitespace. */
  lemma TranscribeStripped(maxRetries: int, server: nat -> Reply)
    requires maxRetries > 0
    ensures var run := Transcribe(maxRetries, server);
      run.outcome.Success? ==> var t := run.outcome.value; t == [] || (!IsSpace(t[0]) && !IsSpace(t[|t| - 1]))
  {
    RunFromEndsOnAnAttempt(0, maxRetries, server, None);
    var run := Transcribe(maxRetries, server);
    var last := server(run.requests - 1);
    if run.outcome.Success? && last.field.Text? {
      StripIdempotent(last.field.s);
    }
  }

  /**
   * A recognised text is the stripped `text` member of the last reply, a 200,
   * or empty when that member is null; a network error that ends the run is
   * the client error of the last POST.
   */
  lemma TranscribeLastReply(maxRetries: int, server: nat -> Reply)
    requires maxRetries > 0
    ensures var run := Transcribe(maxRetries, server); var last := server(run.requests - 1);
      && run.requests >= 1
      && (run.outcome.Success? ==>
            && last.Http? && last.status == 200
            && run.outcome.value == (if last.field.Text? then Strip(last.field.s) else []))
      && (run.outcome.Failure? && run.outcome.error.NetworkError? ==>
            last == ClientError(run.outcome.error.message))
  {
    RunFromEndsOnAnAttempt(0, maxRetries, server, None);
  }

  /** A client error (status below 500 other than 200) is never retried. */
  lemma TranscribeClientErrorFinal(maxRetries: int, server: nat -> Reply)
    requires maxRetries > 0
    requires server(0).Http? && server(0).status != 200 && server(0).status < 500
    ensures Transcribe(maxRetries, server) == Run(Failure(Raised(RecognitionErrorPrefix + server(0).body)), [], 1)
  {
  }

  /** The transcription service. */
  class TranscriptionService {
    /** The largest file it sends. */
    const maxSize: int

    constructor ()
      ensures maxSize == MaxSize
    {
      maxSize := MaxSize;
    }

    /** One attempt of the loop: what its reply makes the loop do. */
    method Attempt(reply: Reply, attempt: nat, maxRetries: int) returns (step: Step)
      requires attempt < maxRetries
      ensures step == AttemptStep(reply, attempt, maxRetries)
    {
      match reply {
        case Http(status, body, field) =>
          if status != 200 {
            if status >= 500 && attempt < maxRetries - 1 {
              return Retry(Raised(ServerErrorPrefix + Config.DecimalString(status)), (attempt + 1) * 2);
            }
            return Raise(Raised(RecognitionErrorPrefix + body));
          }
          match field {
            case Missing(error) =>
              return Raise(Raised(RecognitionErrorPrefix + error.GetOr(UnknownError)));
            case NullText =>
              return Done("");
            case Text(s) =>
              return Done(Strip(s));
          }
        case ClientError(message) =>
          if attempt == maxRetries - 1 {
            return Raise(NetworkError(message));
          }
          return Retry(NetworkError(message), (attempt + 1) * 2);
        case OtherError(message) =>
          return Raise(Raised(message));
      }
    }

    /** Posts the audio up to `maxRetries` times; returns the outcome and the pauses taken. */
    method TranscribeAudio(server: nat -> Reply, maxRetries: int) returns (r: Result<string, Error>, waits: seq<nat>)
      ensures var run := Transcribe(maxRetries, server); r == run.outcome && waits == run.waits
    {
      var lastError: Option<Error> := None;
      waits := [];
      var attempt: nat := 0;
      while attempt < maxRetries
        invariant var rest := RunFrom(attempt, maxRetries, server, lastError);
          && Transcribe(maxRetries, server).outcome == rest.outcome
          && Transcribe(maxRetries, server).waits == waits + rest.waits
        decreases maxRetries - attempt
      {
        var step := Attempt(server(attempt), attempt, maxRetries);
        match step {
          case Done(text) =>
            return Success(text), waits;
          case Raise(error) =>
            return Failure(error), waits;
          case Retry(last, wait) =>
            ghost var rest := RunFrom(attempt + 1, maxRetries, server, Some(last));
            assert waits + ([wait] + rest.waits) == (waits + [wait]) + rest.waits;
            waits := waits + [wait];
            lastError := Some(last);
            attempt := attempt + 1;
        }
      }
      r := Failure(lastError.GetOr(Raised(GaveUpMessage)));
    }

    /**
     * Transcribes a voice file of `fileSize` bytes with the default number of
     * attempts: too large a file is refused before any request, an empty
     * transcript is an error, and a network error is reported as a connection
     * failure.
     */
    method TranscribeVoice(fileSize: int, server: nat -> Reply) returns (r: Result<string, VoiceError>)
      requires maxSize == MaxSize
      ensures r == Voice(fileSize, server)
    {
      if fileSize > maxSize {
        return Failure(FileTooLarge(fileSize));
      }
      var text, _ := TranscribeAudio(server, DefaultMaxRetries);
      match text {
        case Success(t) =>
          if t == [] {
            return Failure(NothingRecognised);
          }
          return Success(t);
        case Failure(NetworkError(message)) =>
          return Failure(ConnectionFailed(message));
        case Failure(Raised(message)) =>
          return Failure(Failed(message));
      }
    }
  }

  /** Why transcribing a voice message failed. */
  datatype VoiceError =
    | FileTooLarge(size: int)       // over the size limit; nothing was sent
    | NothingRecognised             // the service returned an empty text
    | ConnectionFailed(message: string) // a network error, reported as a connection failure
    | Failed(message: string)       // any other error, passed on

  /** `transcribe_voice`: the outcome for a file of `fileSize` bytes. */
  function Voice(fileSize: int, server: nat -> Reply): (r: Result<string, VoiceError>)
    ensures fileSize > MaxSize <==> r == Failure(FileTooLarge(fileSize))
    ensures r.Success? ==> r.value != [] && !IsSpace(r.value[0]) && !IsSpace(r.value[|r.value| - 1])
  {
    if fileSize > MaxSize then Failure(FileTooLarge(fileSize))
    else
      TranscribeStripped(DefaultMaxRetries, server);
      match Transcribe(DefaultMaxRetries, server).outcome
      case Success(t) => if t == [] then Failure(NothingRecognised) else Success(t)
      case Failure(NetworkError(message)) => Failure(ConnectionFailed(message))
      case Failure(Raised(message)) => Failure(Failed(message))
  }

  /**
   * For a file within the limit, `transcribe_voice` turns the outcome of the
   * retry loop into its own: an empty text is "nothing recognised", a network
   * error (a client error on the last POST) becomes a connection failure with
   * its message, any other error is passed on, and a non-empty text is
   * returned as it is.
   */
  lemma VoiceOutcome(fileSize: int, server: nat -> Reply)
    requires fileSize <= MaxSize
    ensures var run := Transcribe(DefaultMaxRetries, server);
      && (run.outcome == Success([]) <==> Voice(fileSize, server) == Failure(NothingRecognised))
      && (Voice(fileSize, server).Success? <==> run.outcome.Success? && run.outcome.value != [])
      && (Voice(fileSize, server).Success? ==> Success(Voice(fileSize, server).value) == run.outcome)
      && (forall m :: run.outcome == Failure(NetworkError(m)) <==> Voice(fileSize, server) == Failure(ConnectionFailed(m)))
      && (forall m :: run.outcome == Failure(Raised(m)) <==> Voice(fileSize, server) == Failure(Failed(m)))
  {
  }

  /** A connection failure reports the client error of the last of the three POSTs. */
  lemma VoiceConnectionFailed(fileSize: int, server: nat -> Reply, message: string)
    requires fileSize <= MaxSize
    requires Voice(fileSize, server) == Failure(ConnectionFailed(message))
    ensures var run := Transcribe(DefaultMaxRetries, server);
      1 <= run.requests <= DefaultMaxRetries && server(run.requests - 1) == ClientError(message)
  {
    VoiceOutcome(fileSize, server);
    TranscribeLastReply(DefaultMaxRetries, server);
  }

  /** A transcript is the stripped, non-empty `text` member of the last reply, a 200. */
  lemma VoiceText(fileSize: int, server: nat -> Reply)
    requires Voice(fileSize, server).Success?
    ensures var run := Transcribe(DefaultMaxRetries, server); var last := server(run.requests - 1);
      && 1 <= run.requests <= DefaultMaxRetries
      && last.Http? && last.status == 200 && last.field.Text?
      && Voice(fileSize, server).value == Strip(last.field.s)
  {
    TranscribeLastReply(DefaultMaxRetries, server);
  }

  /** A file of at most 25 MiB whose first POST succeeds is transcribed from that reply alone. */
  lemma VoiceFirstReply(fileSize: int, server: nat -> Reply, s: string)
    requires fileSize <= MaxSize
    requires server(0) == Http(200, "", Text(s))
    ensures Voice(fileSize, server) == if Strip(s) == [] then Failure(NothingRecognised) else Success(Strip(s))
  {
  }

  /** A network error on every attempt is reported as a connection failure after two pauses. */
  lemma VoiceNetworkDown(fileSize: int, server: nat -> Reply, message: string)
    requires fileSize <= MaxSize
    requires forall k :: server(k) == ClientError(message)
    ensures Voice(fileSize, server) == Failure(ConnectionFailed(message))
    ensures Transcribe(DefaultMaxRetries, server) == Run(Failure(NetworkError(message)), [2, 4], 3)
  {
  }
}
