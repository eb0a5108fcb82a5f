/** Fetching the readings and the gate that rejects bodies that are not a JSON array. */
module Telemetry {
  import opened Wrappers
  import opened PyStr
  import opened Readings

  /**
    What one `requests.get` of the telemetry endpoint produced. `json` is
    what `resp.json()` would return: `None` when it would raise.
  */
  datatype Response =
    | Unreachable
    | Body(text: string, json: Option<seq<Reading>>)

  datatype FetchError =
    | SourceUnreachable   // requests raised (refused, timed out)
    | InvalidResponse     // the trimmed body does not start with "["
    | Unparsable          // the body passed the gate but resp.json() raised

  /** `resp.text.strip().startswith("[")` */
  predicate AcceptsBody(text: string) {
    StartsWith(Strip(text), "[")
  }

  /** `k` is the first non-whitespace position of `text`. */
  ghost predicate FirstNonSpace(text: string, k: int) {
    0 <= k < |text| && !IsSpace(text[k]) && AllSpace(text[..k])
  }

  /** The gate looks only at the first non-whitespace character, which must be `[`. */
  lemma AcceptsBodyIff(text: string)
    ensures AcceptsBody(text) <==> exists k :: FirstNonSpace(text, k) && text[k] == '['
  {
    StripSpec(text);
    var i :| StrippedAt(text, Strip(text), i);
    StrippedGate(text, Strip(text), i);
  }

  /** A stretch that whitespace surrounds starts with `[` exactly when the first non-whitespace character is `[`. */
  lemma StrippedGate(text: string, r: string, i: int)
    requires StrippedAt(text, r, i)
    ensures StartsWith(r, "[") <==> exists k :: FirstNonSpace(text, k) && text[k] == '['
  {
    if StartsWith(r, "[") {
      assert r[0] == '[' && text[i] == r[0];
      assert FirstNonSpace(text, i);
    }
    if k :| FirstNonSpace(text, k) && text[k] == '[' {
      assert forall j :: 0 <= j < i ==> IsSpace(text[j]) by {
        assert forall j :: 0 <= j < i ==> text[..i][j] == text[j];
      }
      assert forall j :: 0 <= j < k ==> IsSpace(text[j]) by {
        assert forall j :: 0 <= j < k ==> text[..k][j] == text[j];
      }
      assert forall j :: i + |r| <= j < |text| ==> IsSpace(text[j]) by {
        assert forall j :: i + |r| <= j < |text| ==> text[i + |r|..][j - i - |r|] == text[j];
      }
      assert r != [] ==> text[i] == r[0];
    }
  }

  /** A body that starts with `[` and ends with `]` passes the gate, whatever lies between. */
  lemma BracketedAccepted(inner: string)
    ensures AcceptsBody("[" + inner + "]")
  {
    var text := "[" + inner + "]";
    assert text[0] == '[' && text[|text| - 1] == ']';
    assert TrimLeft(text) == text;
    assert TrimRight(text) == text;
  }

  /** An empty or whitespace-only body is rejected. */
  lemma BlankBodyRejected(text: string)
    requires AllSpace(text)
    ensures !AcceptsBody(text)
  {
    StripEmptyIff(text);
  }

  /**
    One fetch: an unreachable source and a rejected or unparsable body are
    each a (non-fatal) failure; only an accepted, parsed body yields readings.
  */
  function Fetch(resp: Response): (r: Result<seq<Reading>, FetchError>)
    ensures r.Success? <==> resp.Body? && AcceptsBody(resp.text) && resp.json.Some?
    ensures r.Success? ==> r.value == resp.json.value
    ensures resp.Body? && !AcceptsBody(resp.text) ==> r == Failure(InvalidResponse)
  {
    match resp
    case Unreachable => Failure(SourceUnreachable)
    case Body(text, json) =>
      if !AcceptsBody(text) then Failure(InvalidResponse)
      else if json.None? then Failure(Unparsable)
      else Success(json.value)
  }
}
