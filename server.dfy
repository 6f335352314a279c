/**
 * The `/voice` webhook of the call server and the file names of the
 * `/recording` webhook.
 *
 * Every `/voice` callback looks up the call's record in a process-wide table
 * keyed by call id (a call never seen before counts as turn 0). Below the
 * turn limit it advances the turn, stores the record and answers with a
 * spoken line, a silent recording and a redirect back to `/voice`; at the
 * limit it says goodbye, hangs up and leaves the table alone.
 *
 * `VoiceStep` is the decision as a function of the table; the class
 * `CallStateStore` holds the table and updates it in place the way the
 * handler does, and is proved against `VoiceStep`.
 */
module Server {
  import opened Wrappers

  /** The `CallSid` form field; it is `None` when the field is missing. */
  type CallSid = Option<string>

  const MAX_TURNS: int := 3
  const GOODBYE: string := "Thanks for your help. Goodbye."
  const BOT_TEXT: string := "Hi, I'm calling to schedule an appointment."
  const VOICE_URL: string := "/voice"
  const RECORDING_URL: string := "/recording"
  const RECORD_MAX_LENGTH: nat := 20

  /** One entry of the call table: the number of turns taken and the
      conversation lines (which the handler never changes). */
  datatype CallRecord = CallRecord(turn: int, lines: seq<string>)

  /** The record an unseen call id is handled with. */
  const FRESH_RECORD: CallRecord := CallRecord(0, [])

  /** The call-control instructions a response is made of, in order. */
  datatype Verb =
    | Say(text: string)
    | Record(
        maxLength: nat,
        playBeep: bool,
        recordingStatusCallback: string,
        recordingStatusCallbackMethod: string,
        trim: string)
    | Redirect(url: string, httpMethod: string)
    | Hangup

  type CallTable = map<CallSid, CallRecord>

  /** The record the handler works with: the stored one, or turn 0 with no
      lines for a call id the table does not hold. Looking up never changes
      the table. */
  function Lookup(table: CallTable, callSid: CallSid): (r: CallRecord)
    ensures callSid in table ==> r == table[callSid]
    ensures callSid !in table ==> r.turn == 0 && r.lines == []
  {
    if callSid in table then table[callSid] else FRESH_RECORD
  }

  /** A response ends the call when it tells the provider to hang up. */
  predicate EndsCall(response: seq<Verb>) {
    Hangup in response
  }

  /** The answer once the turn limit is reached: the goodbye line is spoken
      first and the call ends; nothing is recorded and nothing calls back. */
  function GoodbyeResponse(): (r: seq<Verb>)
    ensures EndsCall(r)
    ensures r[0] == Say(GOODBYE)
    ensures forall v :: v in r ==> !v.Record? && !v.Redirect?
  {
    [Say(GOODBYE), Hangup]
  }

  /** The answer while the conversation goes on: the bot line is spoken
      first, the call is not ended, the agent's reply is recorded with its
      status reported to `/recording`, and the last instruction sends the
      provider back to `/voice`. */
  function ContinueResponse(): (r: seq<Verb>)
    ensures !EndsCall(r)
    ensures r != [] && r[0] == Say(BOT_TEXT)
    ensures exists v :: v in r && v.Record? && v.recordingStatusCallback == RECORDING_URL
    ensures r[|r| - 1] == Redirect(VOICE_URL, "POST")
  {
    [ Say(BOT_TEXT),
      Record(RECORD_MAX_LENGTH, false, RECORDING_URL, "POST", "trim-silence"),
      Redirect(VOICE_URL, "POST") ]
  }

  /** The new table and the response of one `/voice` callback. */
  datatype Step = Step(table: CallTable, response: seq<Verb>)

  /** One `/voice` callback for `callSid`, as a function of the table. The
      call ends exactly when the call's turn has reached MAX_TURNS, and the
      call's lines are never changed. */
  function VoiceStep(table: CallTable, callSid: CallSid): (s: Step)
    ensures EndsCall(s.response) <==> Lookup(table, callSid).turn >= MAX_TURNS
    ensures Lookup(s.table, callSid).lines == Lookup(table, callSid).lines
  {
    var state := Lookup(table, callSid);
    if state.turn >= MAX_TURNS then
      Step(table, GoodbyeResponse())
    else
      Step(table[callSid := state.(turn := state.turn + 1)], ContinueResponse())
  }

  /** The table invariant: every stored turn lies between 0 and MAX_TURNS. */
  ghost predicate TurnsBounded(table: CallTable) {
    forall k :: k in table ==> 0 <= table[k].turn <= MAX_TURNS
  }

  /** An unseen call id behaves exactly as if it were stored with turn 0 and
      no lines. */
  lemma UnseenCallIsFresh(table: CallTable, callSid: CallSid)
    requires callSid !in table
    ensures VoiceStep(table, callSid) == VoiceStep(table[callSid := FRESH_RECORD], callSid)
    ensures VoiceStep(table, callSid).response == ContinueResponse()
    ensures VoiceStep(table, callSid).table == table[callSid := CallRecord(1, [])]
  {
  }

  /** At or past the turn limit the callback says goodbye, hangs up and
      leaves the whole table as it was; the entry is not removed. */
  lemma GoodbyeLeavesTableAlone(table: CallTable, callSid: CallSid)
    requires Lookup(table, callSid).turn >= MAX_TURNS
    ensures VoiceStep(table, callSid).response == GoodbyeResponse()
    ensures VoiceStep(table, callSid).table == table
  {
  }

  /** Below the turn limit the callback stores the call's record with its
      turn advanced by exactly one and its lines unchanged, and answers with
      say, record, redirect. */
  lemma ContinueAdvancesTurn(table: CallTable, callSid: CallSid)
    requires Lookup(table, callSid).turn < MAX_TURNS
    ensures var s := VoiceStep(table, callSid);
      && s.response == ContinueResponse()
      && callSid in s.table
      && s.table[callSid].turn == Lookup(table, callSid).turn + 1
      && s.table[callSid].lines == Lookup(table, callSid).lines
  {
  }

  /** A callback touches only its own call's entry: every other entry, and
      every entry's lines, stay as they were; the only key it can add is its
      own. */
  lemma VoiceStepFrame(table: CallTable, callSid: CallSid)
    ensures var t := VoiceStep(table, callSid).table;
      && t.Keys <= table.Keys + {callSid}
      && table.Keys <= t.Keys
      && (forall k :: k in table && k != callSid ==> t[k] == table[k])
      && (forall k :: k in t ==> t[k].lines == Lookup(table, k).lines)
  {
  }

  /** A callback keeps every stored turn within 0..MAX_TURNS. */
  lemma VoiceStepPreservesBound(table: CallTable, callSid: CallSid)
    requires TurnsBounded(table)
    ensures TurnsBounded(VoiceStep(table, callSid).table)
  {
  }

  /** A sequence of `/voice` callbacks handled one after another: the final
      table and the response to each callback. */
  datatype Run = Run(table: CallTable, responses: seq<seq<Verb>>)

  function Replay(table: CallTable, callSids: seq<CallSid>): (r: Run)
    ensures |r.responses| == |callSids|
    decreases |callSids|
  {
    if callSids == [] then Run(table, [])
    else
      var s := VoiceStep(table, callSids[0]);
      var rest := Replay(s.table, callSids[1..]);
      Run(rest.table, [s.response] + rest.responses)
  }

  /** How many callbacks in `callSids` are for `callSid`. */
  function Count(callSids: seq<CallSid>, callSid: CallSid): (n: nat)
    ensures n <= |callSids|
  {
    if callSids == [] then 0
    else (if callSids[0] == callSid then 1 else 0) + Count(callSids[1..], callSid)
  }

  /** The smaller of two integers. */
  function Min(a: int, b: int): (m: int)
    ensures m <= a && m <= b
    ensures m == a || m == b
  {
    if a <= b then a else b
  }

  /** After any sequence of callbacks, a call's turn is its starting turn
      plus the number of callbacks it received, capped at MAX_TURNS; calls
      do not affect each other. */
  lemma {:induction false} TurnAfterReplay(table: CallTable, callSids: seq<CallSid>, callSid: CallSid)
    requires TurnsBounded(table)
    ensures TurnsBounded(Replay(table, callSids).table)
    ensures Lookup(Replay(table, callSids).table, callSid).turn
         == Min(Lookup(table, callSid).turn + Count(callSids, callSid), MAX_TURNS)
    decreases |callSids|
  {
    if callSids != [] {
      var s := VoiceStep(table, callSids[0]);
      VoiceStepPreservesBound(table, callSids[0]);
      TurnAfterReplay(s.table, callSids[1..], callSid);
    }
  }

  /** The response to the i-th callback of any interleaving depends only on
      how many earlier callbacks the same call had: it continues the
      conversation while the call's starting turn plus that number is below
      MAX_TURNS, and says goodbye from then on. */
  lemma {:induction false} ResponseAt(table: CallTable, callSids: seq<CallSid>, i: nat)
    requires TurnsBounded(table)
    requires i < |callSids|
    ensures Replay(table, callSids).responses[i]
         == if Lookup(table, callSids[i]).turn + Count(callSids[..i], callSids[i]) < MAX_TURNS
            then ContinueResponse() else GoodbyeResponse()
    decreases i
  {
    if i > 0 {
      var s := VoiceStep(table, callSids[0]);
      VoiceStepPreservesBound(table, callSids[0]);
      ResponseAt(s.table, callSids[1..], i - 1);
      assert callSids[..i][1..] == callSids[1..][..i - 1];
    }
  }

  /** The call's own schedule: starting from no entry, its first MAX_TURNS
      callbacks continue the conversation and every later one says goodbye,
      whatever callbacks for other calls are interleaved with them. */
  lemma CallSchedule(callSids: seq<CallSid>, i: nat)
    requires i < |callSids|
    ensures Replay(map[], callSids).responses[i]
         == if Count(callSids[..i], callSids[i]) < MAX_TURNS
            then ContinueResponse() else GoodbyeResponse()
  {
    ResponseAt(map[], callSids, i);
  }

  /** Callbacks for one call alone: the n-th (counting from 0) continues the
      conversation exactly when n < MAX_TURNS. */
  lemma SingleCallSchedule(callSid: CallSid, count: nat, i: nat)
    requires i < count
    ensures Replay(map[], seq(count, _ => callSid)).responses[i]
         == if i < MAX_TURNS then ContinueResponse() else GoodbyeResponse()
  {
    var callSids := seq(count, _ => callSid);
    CountRepeated(callSids[..i], callSid);
    CallSchedule(callSids, i);
  }

  lemma {:induction false} CountRepeated(callSids: seq<CallSid>, callSid: CallSid)
    requires forall j :: 0 <= j < |callSids| ==> callSids[j] == callSid
    ensures Count(callSids, callSid) == |callSids|
  {
    if callSids != [] {
      CountRepeated(callSids[1..], callSid);
    }
  }

  /** The process-wide call table (`CALL_STATE`) and the `/voice` handler
      that updates it in place. */
  class CallStateStore {
    var callState: CallTable

    ghost predicate Valid()
      reads this
    {
      TurnsBounded(callState)
    }

    /** The table starts empty when the server starts. */
    constructor ()
      ensures callState == map[]
      ensures Valid()
    {
      callState := map[];
    }

    /** The `/voice` handler for a callback carrying `callSid`. */
    method Voice(callSid: CallSid) returns (response: seq<Verb>)
      modifies this
      ensures callState == VoiceStep(old(callState), callSid).table
      ensures response == VoiceStep(old(callState), callSid).response
      ensures old(Valid()) ==> Valid()
      ensures Lookup(old(callState), callSid).turn >= MAX_TURNS ==>
        callState == old(callState) && response == GoodbyeResponse()
      ensures Lookup(old(callState), callSid).turn < MAX_TURNS ==>
        && callState == old(callState)[callSid := Lookup(old(callState), callSid).(turn := Lookup(old(callState), callSid).turn + 1)]
        && response == ContinueResponse()
    {
      var state := if callSid in callState then callState[callSid] else FRESH_RECORD;
      var turn := state.turn;

      response := [];

      if turn >= MAX_TURNS {
        response := response + [Say(GOODBYE)];
        response := response + [Hangup];
        return;
      }

      var botText := BOT_TEXT;
      state := state.(turn := turn + 1);
      callState := callState[callSid := state];

      response := response + [Say(botText)];
      response := response + [Record(RECORD_MAX_LENGTH, false, RECORDING_URL, "POST", "trim-silence")];
      response := response + [Redirect(VOICE_URL, "POST")];
    }
  }

  /** Why the `/recording` handler could not name its files: the recording
      URL field was missing, and `None + ".wav"` raises. */
  datatype RecordingError = MissingRecordingUrl

  const WAV_SUFFIX: string := ".wav"
  const RECORDINGS_DIR: string := "recordings/"

  /** How an optional form field prints inside an f-string: the text
      itself, or `None` when the field is missing, so a missing field and
      the text "None" print alike. */
  function FormText(field: Option<string>): (r: string)
    ensures field.Some? ==> r == field.value
    ensures r == "None" <==> (field == None || field == Some("None"))
  {
    match field
    case Some(s) => s
    case None => "None"
  }

  /** The URL the recording is downloaded from: the recording URL with the
      `.wav` extension appended. */
  function AudioUrl(recordingUrl: string): (u: string)
    ensures |u| == |recordingUrl| + |WAV_SUFFIX|
    ensures u[..|recordingUrl|] == recordingUrl
    ensures u[|recordingUrl|..] == WAV_SUFFIX
  {
    recordingUrl + WAV_SUFFIX
  }

  /** The local file a call's recording is written to:
      `recordings/<call id>.wav`. */
  function RecordingFilePath(callSid: CallSid): (p: string)
    ensures |p| == |RECORDINGS_DIR| + |FormText(callSid)| + |WAV_SUFFIX|
    ensures p[..|RECORDINGS_DIR|] == RECORDINGS_DIR
    ensures p[|RECORDINGS_DIR|..|p| - |WAV_SUFFIX|] == FormText(callSid)
    ensures p[|p| - |WAV_SUFFIX|..] == WAV_SUFFIX
  {
    RECORDINGS_DIR + FormText(callSid) + WAV_SUFFIX
  }

  /** The download URL and the file path of one `/recording` callback. The
      URL is derived first, so a missing recording URL fails before anything
      else happens. */
  function RecordingTargets(callSid: CallSid, recordingUrl: Option<string>): (r: Result<(string, string), RecordingError>)
    ensures r.Failure? <==> recordingUrl.None?
    ensures r.Success? ==>
      && r.value.0 == AudioUrl(recordingUrl.value)
      && r.value.1 == RecordingFilePath(callSid)
  {
    match recordingUrl
    case None => Failure(MissingRecordingUrl)
    case Some(url) => Success((AudioUrl(url), RecordingFilePath(callSid)))
  }

  /** Different present call ids give different path strings. */
  lemma RecordingFilePathInjective(a: string, b: string)
    requires RecordingFilePath(Some(a)) == RecordingFilePath(Some(b))
    ensures a == b
  {
  }

  /** A missing call id and the call id "None" share one recording file. */
  lemma MissingCallSidSharesPath()
    ensures RecordingFilePath(None) == RecordingFilePath(Some("None"))
  {
  }

  /** The file name depends on the call id alone: every recording of the
      same call is written to the same path, so a later one replaces an
      earlier one. */
  lemma RecordingsOfOneCallShareAPath(callSid: CallSid, url1: string, url2: string)
    ensures RecordingTargets(callSid, Some(url1)).value.1 == RecordingTargets(callSid, Some(url2)).value.1
  {
  }
}
