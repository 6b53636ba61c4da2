/**
  The upload handler of the dataset uploader (`handleUpload`,
  DatasetUploader.jsx lines 12-37). The component's state slots `error` and
  `loading` are fields of `Uploader`; the network request is recorded in
  `requests` and its reply is a parameter, `Reply`; the values handed to the
  `onUploaded` callback are recorded in `delivered`.

  The handler runs in two steps, split where it awaits the request: `Begin`
  clears the error, validates the file and sets `loading`; `Finish` applies
  the reply and resets `loading`. `HandleUpload` is the two together.
*/
module DatasetUploader {
  import opened JsValues

  /** The file the user picked or dropped; only its name is inspected. */
  datatype File = File(name: string)

  /** What the request to the dataset-creation endpoint comes back with: a
      transport failure with its message, a response whose status is not ok,
      or an ok response whose body did or did not parse as JSON. */
  datatype Reply<T> = TransportFailed(message: string) | NotOk | Parsed(body: T) | Unparsable(message: string)

  const RejectedMessage: string := "Please upload a CSV file"
  const FailedMessage: string := "Upload failed"

  /** `c.toLowerCase()` for a single character, ASCII letters only. */
  function LowerChar(c: char): (l: char)
    ensures 'A' <= c <= 'Z' ==> l as int == c as int + 32
    ensures !('A' <= c <= 'Z') ==> l == c
  {
    if 'A' <= c <= 'Z' then (c as int + 32) as char else c
  }

  /** `s.toLowerCase()`, ASCII letters only. */
  function Lower(s: string): (l: string)
    ensures |l| == |s| && forall i :: 0 <= i < |s| ==> l[i] == LowerChar(s[i])
  {
    seq(|s|, i requires 0 <= i < |s| => LowerChar(s[i]))
  }

  /** `s.endsWith(suffix)`. */
  predicate EndsWith(s: string, suffix: string) {
    |suffix| <= |s| && s[|s| - |suffix|..] == suffix
  }

  /** `name.toLowerCase().endsWith('.csv')`. */
  predicate IsCsvName(name: string) {
    EndsWith(Lower(name), ".csv")
  }

  /** A name is accepted exactly when its last four characters are a dot and
      the letters c, s, v, each in either case. */
  lemma CsvNameCharacters(name: string)
    ensures IsCsvName(name) <==>
      |name| >= 4 && name[|name| - 4] == '.'
      && (name[|name| - 3] == 'c' || name[|name| - 3] == 'C')
      && (name[|name| - 2] == 's' || name[|name| - 2] == 'S')
      && (name[|name| - 1] == 'v' || name[|name| - 1] == 'V')
  {
    if |name| >= 4 {
      var l := Lower(name);
      var n := |name|;
      assert l[n - 4..] == [l[n - 4], l[n - 3], l[n - 2], l[n - 1]];
    }
  }

  class Uploader<T> {
    var error: string
    var loading: bool
    /** The names of the files sent to the backend, in order. */
    var requests: seq<string>
    /** The values passed to `onUploaded`, in order. */
    var delivered: seq<T>
    /** Whether an `onUploaded` callback was supplied (`onUploaded?.(data)`). */
    const hasCallback: bool

    constructor (hasCallback: bool)
      ensures error == "" && !loading && requests == [] && delivered == []
      ensures this.hasCallback == hasCallback
    {
      error, loading, requests, delivered := "", false, [], [];
      this.hasCallback := hasCallback;
    }

    /** Lines 13-28 up to the await: the error slot is cleared; a missing
        file returns at once; a name not ending in ".csv" in any case sets
        the rejection message and returns before any request; otherwise
        `loading` is set and the file is sent. */
    method Begin(file: Option<File>) returns (sent: bool)
      modifies this
      ensures sent <==> file.Some? && IsCsvName(file.value.name)
      ensures error == if file.Some? && !sent then RejectedMessage else ""
      ensures loading == (sent || old(loading))
      ensures requests == if sent then old(requests) + [file.value.name] else old(requests)
      ensures delivered == old(delivered)
    {
      error := "";
      if file.None? {
        return false;
      }
      if !IsCsvName(file.value.name) {
        error := RejectedMessage;
        return false;
      }
      loading := true;
      requests := requests + [file.value.name];
      sent := true;
    }

    /** Lines 29-36, once the request has come back: a non-ok status fails
        with "Upload failed", a transport or body failure with its own
        message, and an ok reply is passed to `onUploaded` once; `loading`
        is reset in every case. */
    method Finish(reply: Reply<T>)
      modifies this
      ensures !loading
      ensures error == match reply
        case TransportFailed(m) => m
        case NotOk => FailedMessage
        case Unparsable(m) => m
        case Parsed(_) => old(error)
      ensures delivered == if reply.Parsed? && hasCallback then old(delivered) + [reply.body] else old(delivered)
      ensures requests == old(requests)
    {
      match reply {
        case TransportFailed(m) =>
          error := m;
        case NotOk =>
          error := FailedMessage;
        case Unparsable(m) =>
          error := m;
        case Parsed(body) =>
          if hasCallback {
            delivered := delivered + [body];
          }
      }
      loading := false;
    }

    /** `handleUpload(file)`, the request answered by `reply`. The reply is
        consulted only when a request was sent. */
    method HandleUpload(file: Option<File>, reply: Reply<T>)
      modifies this
      ensures file.None? ==> error == "" && loading == old(loading)
      ensures file.Some? && !IsCsvName(file.value.name) ==> error == RejectedMessage && loading == old(loading)
      ensures file.Some? && IsCsvName(file.value.name) ==>
        && !loading
        && requests == old(requests) + [file.value.name]
        && error == (match reply
          case TransportFailed(m) => m
          case NotOk => FailedMessage
          case Unparsable(m) => m
          case Parsed(_) => "")
        && delivered == if reply.Parsed? && hasCallback then old(delivered) + [reply.body] else old(delivered)
      ensures !(file.Some? && IsCsvName(file.value.name)) ==> requests == old(requests) && delivered == old(delivered)
    {
      var sent := Begin(file);
      if sent {
        Finish(reply);
      }
    }
  }

  /** "data.txt" is rejected; "report.CSV" and "q1.Csv" are accepted. */
  lemma CsvNameExamples()
    ensures !IsCsvName("data.txt")
    ensures IsCsvName("report.CSV") && IsCsvName("q1.Csv")
  {
    CsvNameCharacters("data.txt");
    CsvNameCharacters("report.CSV");
    CsvNameCharacters("q1.Csv");
  }

  /** The scenario of a rejected name: uploading "data.txt" sets the
      rejection message, sends nothing and calls back nothing. */
  method RejectedUploadScenario<T>(reply: Reply<T>) returns (u: Uploader<T>)
    ensures u.error == RejectedMessage && !u.loading && u.requests == [] && u.delivered == []
  {
    u := new Uploader<T>(true);
    CsvNameExamples();
    u.HandleUpload(Some(File("data.txt")), reply);
  }
}
