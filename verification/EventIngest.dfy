/** The ingest route of `eventHttp.ts`: what each submitted candidate is, and the answer a batch gets. */
module EventIngest {
  import opened Wrappers
  import opened PlayTotals
  import opened Retention

  const MAX_BATCH_EVENTS := 500

  /** A member of a submitted object, as far as validation looks at it. */
  datatype Field = Absent | Text(text: string) | Number(value: real) | NonFinite | Other

  datatype Candidate =
    | NotAnObject
    | Fields(id: Field, kind: Field, recordingUrl: Field, completion: Field, occurredAt: Field, deviceId: Field)

  datatype Validated = Valid(event: PlaybackEvent) | Malformed(id: Option<string>)

  predicate IsBase58(c: char) {
    ('1' <= c <= '9' || 'A' <= c <= 'Z' || 'a' <= c <= 'z') && c != 'I' && c != 'O' && c != 'l'
  }

  predicate IsRecordingUrl(url: string) {
    |url| >= 26 && url[..10] == "automerge:" && forall i :: 10 <= i < |url| ==> IsBase58(url[i])
  }

  /** `parses` says whether a text is a date the host's clock understands. */
  function Validate(c: Candidate, parses: string -> bool): Validated {
    if c.NotAnObject? || !c.id.Text? || c.id.text == "" then Malformed(None)
    else if !c.kind.Text? || c.kind.text != "play" then Malformed(Some(c.id.text))
    else if !c.recordingUrl.Text? || !IsRecordingUrl(c.recordingUrl.text) then Malformed(Some(c.id.text))
    else if !c.completion.Number? then Malformed(Some(c.id.text))
    else if !c.occurredAt.Text? || !parses(c.occurredAt.text) then Malformed(Some(c.id.text))
    else
      var deviceId := if c.deviceId.Text? && c.deviceId.text != "" then Some(c.deviceId.text) else None;
      Valid(PlaybackEvent(c.id.text, c.recordingUrl.text, Clamp(c.completion.value), c.occurredAt.text, deviceId))
  }

  const DIGITS := "123456789"
  const UPPER_CASE := "ABCDEFGHJKLMNPQRSTUVWXYZ"
  const LOWER_CASE := "abcdefghijkmnopqrstuvwxyz"
  const BASE58 := DIGITS + UPPER_CASE + LOWER_CASE

  /** The shape of a recording's URL: a scheme and at least 16 characters of the alphabet. */
  ghost predicate ProperUrl(url: string) {
    exists key :: |key| >= 16 && url == "automerge:" + key && forall c :: c in key ==> c in BASE58
  }

  lemma AmongDigits(c: char)
    ensures '1' <= c <= '9' <==> c in DIGITS
  {
    if '1' <= c <= '9' {
      assert DIGITS[(c - '1') as int] == c;
    }
  }

  lemma AmongUpperCase(c: char)
    ensures 'A' <= c <= 'Z' && c != 'I' && c != 'O' <==> c in UPPER_CASE
  {
    if 'A' <= c <= 'Z' && c != 'I' && c != 'O' {
      var k := (c - 'A') as int;
      assert UPPER_CASE[if c < 'I' then k else if c < 'O' then k - 1 else k - 2] == c;
    }
  }

  lemma AmongLowerCase(c: char)
    ensures 'a' <= c <= 'z' && c != 'l' <==> c in LOWER_CASE
  {
    if 'a' <= c <= 'z' && c != 'l' {
      var k := (c - 'a') as int;
      assert LOWER_CASE[if c < 'l' then k else k - 1] == c;
    }
  }

  lemma InAlphabet(c: char)
    ensures IsBase58(c) <==> c in BASE58
  {
    AmongDigits(c);
    AmongUpperCase(c);
    AmongLowerCase(c);
  }

  lemma UrlShape(url: string)
    ensures IsRecordingUrl(url) <==> ProperUrl(url)
  {
    if IsRecordingUrl(url) {
      var key := url[10..];
      assert url == "automerge:" + key;
      forall c | c in key
        ensures c in BASE58
      {
        var i :| 0 <= i < |key| && key[i] == c;
        assert url[i + 10] == c;
        InAlphabet(c);
      }
    }
    if key :| |key| >= 16 && url == "automerge:" + key && forall c :: c in key ==> c in BASE58 {
      forall i | 10 <= i < |url|
        ensures IsBase58(url[i])
      {
        assert url[i] == key[i - 10];
        InAlphabet(url[i]);
      }
    }
  }

  /**
   * A candidate passes as an event exactly when it is that event's id, which is not empty, its recording's
   * URL, its time, which parses, and a number that its completion is cut from, with the type of a play. A
   * device id that is no text, or empty, is none.
   */
  lemma ValidIff(c: Candidate, parses: string -> bool, e: PlaybackEvent)
    ensures Validate(c, parses) == Valid(e) <==>
      && c.Fields? && c.kind == Text("play")
      && c.id == Text(e.id) && e.id != ""
      && c.recordingUrl == Text(e.recordingUrl) && ProperUrl(e.recordingUrl)
      && c.occurredAt == Text(e.occurredAt) && parses(e.occurredAt)
      && c.completion.Number?
      && e.completion == (if c.completion.value < 0.0 then 0.0 else if c.completion.value > 1.0 then 1.0
        else c.completion.value)
      && match e.deviceId {
        case Some(d) => d != "" && c.deviceId == Text(d)
        case None => !c.deviceId.Text? || c.deviceId == Text("")
      }
  {
    if c.Fields? && c.recordingUrl.Text? {
      UrlShape(c.recordingUrl.text);
    }
  }

  /** What does not pass is answered with its id, when it has one that is a text and not empty. */
  lemma MalformedId(c: Candidate, parses: string -> bool)
    requires Validate(c, parses).Malformed?
    ensures Validate(c, parses).id == if c.Fields? && c.id.Text? && c.id.text != "" then Some(c.id.text) else None
  {
  }

  datatype Rejection = Rejection(index: nat, id: Option<string>, retryable: bool)

  datatype Sorted = Sorted(valid: seq<PlaybackEvent>, rejected: seq<Rejection>)

  /** Judges each candidate on its own. Only a recording this host does not know yet may be tried again. */
  function Sort(batch: seq<Candidate>, parses: string -> bool, known: string -> bool): Sorted {
    if batch == [] then Sorted([], [])
    else
      var n := |batch| - 1;
      var s := Sort(batch[..n], parses, known);
      match Validate(batch[n], parses)
      case Malformed(id) => s.(rejected := s.rejected + [Rejection(n, id, false)])
      case Valid(e) =>
        if known(e.recordingUrl) then s.(valid := s.valid + [e])
        else s.(rejected := s.rejected + [Rejection(n, Some(e.id), true)])
  }

  datatype Answer = Answer(accepted: seq<string>, duplicates: seq<string>, rejected: seq<Rejection>)

  function Ids(es: seq<StoredEvent>): seq<string> {
    seq(|es|, i requires 0 <= i < |es| => es[i].event.id)
  }

  /**
   * What passes the route may be counted as it is: it has an id, names a recording, and its completion is a
   * fraction.
   */
  lemma ValidIsCountable(c: Candidate, parses: string -> bool)
    requires Validate(c, parses).Valid?
    ensures var e := Validate(c, parses).event;
      e.id != "" && e.recordingUrl != "" && 0.0 <= e.completion <= 1.0 && Clamp(e.completion) == e.completion
  {
  }

  /**
   * Each candidate that passes and names a known recording is in the batch that goes on, and each other one is
   * rejected, once, in order, by its place and id; for good exactly when it is malformed.
   */
  lemma {:induction false} SortFacts(batch: seq<Candidate>, parses: string -> bool, known: string -> bool)
    ensures IsSortOf(Sort(batch, parses, known), batch, parses, known)
  {
    if batch != [] {
      var n := |batch| - 1;
      SortFacts(batch[..n], parses, known);
      SortNext(batch[..n], batch[n], parses, known);
      AllButLast(batch);
    }
  }

  lemma AllButLast(batch: seq<Candidate>)
    requires batch != []
    ensures batch[..|batch| - 1] + [batch[|batch| - 1]] == batch
  {
  }

  ghost predicate IsSortOf(s: Sorted, batch: seq<Candidate>, parses: string -> bool, known: string -> bool) {
    && NamesRecordings(s.valid) && |s.valid| + |s.rejected| == |batch|
    && ComeFrom(s.valid, batch, parses, known)
    && AreFair(s.rejected, batch, parses, known)
    && AllSorted(s, batch, parses, known)
  }

  /** Every event that goes on is a candidate that passed, of a known recording. */
  ghost predicate ComeFrom(es: seq<PlaybackEvent>, batch: seq<Candidate>, parses: string -> bool,
      known: string -> bool) {
    forall e :: e in es ==> exists c :: c in batch && Validate(c, parses) == Valid(e) && known(e.recordingUrl)
  }

  /** Every rejection is of the candidate at its place, and no place comes twice. */
  ghost predicate AreFair(rs: seq<Rejection>, batch: seq<Candidate>, parses: string -> bool, known: string -> bool) {
    && (forall r :: r in rs ==> r.index < |batch| && RejectionIsFair(batch[r.index], r, parses, known))
    && (forall i, j :: 0 <= i < j < |rs| ==> rs[i].index < rs[j].index)
  }

  ghost predicate AllSorted(s: Sorted, batch: seq<Candidate>, parses: string -> bool, known: string -> bool) {
    forall i :: 0 <= i < |batch| ==> IsSorted(batch[i], i, s, parses, known)
  }

  lemma ComeFromMore(es: seq<PlaybackEvent>, batch: seq<Candidate>, c: Candidate, parses: string -> bool,
      known: string -> bool)
    requires ComeFrom(es, batch, parses, known)
    ensures ComeFrom(es, batch + [c], parses, known)
    ensures forall e :: Validate(c, parses) == Valid(e) && known(e.recordingUrl) ==>
      ComeFrom(es + [e], batch + [c], parses, known)
  {
    assert forall x :: x in batch ==> x in batch + [c];
    assert (batch + [c])[|batch|] == c;
  }

  lemma AreFairMore(rs: seq<Rejection>, batch: seq<Candidate>, c: Candidate, r: Rejection, parses: string -> bool,
      known: string -> bool)
    requires AreFair(rs, batch, parses, known)
    ensures AreFair(rs, batch + [c], parses, known)
    ensures r.index == |batch| && RejectionIsFair(c, r, parses, known) ==>
      AreFair(rs + [r], batch + [c], parses, known)
  {
    assert forall i :: 0 <= i < |rs| ==> rs[i] in rs;
  }

  lemma AllSortedMore(s: Sorted, t: Sorted, batch: seq<Candidate>, c: Candidate, parses: string -> bool,
      known: string -> bool)
    requires AllSorted(s, batch, parses, known) && s.valid <= t.valid && s.rejected <= t.rejected
    requires IsSorted(c, |batch|, t, parses, known)
    ensures AllSorted(t, batch + [c], parses, known)
  {
    forall i | 0 <= i < |batch|
      ensures IsSorted(batch[i], i, t, parses, known)
    {
      assert IsSorted(batch[i], i, s, parses, known);
    }
  }

  /** One more candidate. */
  lemma SortNext(batch: seq<Candidate>, c: Candidate, parses: string -> bool, known: string -> bool)
    requires IsSortOf(Sort(batch, parses, known), batch, parses, known)
    ensures IsSortOf(Sort(batch + [c], parses, known), batch + [c], parses, known)
  {
    var all := batch + [c];
    assert all[..|batch|] == batch && all[|batch|] == c;
    var s, t := Sort(batch, parses, known), Sort(all, parses, known);
    ComeFromMore(s.valid, batch, c, parses, known);
    match Validate(c, parses)
    case Malformed(id) =>
      var r := Rejection(|batch|, id, false);
      AreFairMore(s.rejected, batch, c, r, parses, known);
      assert t.rejected[|s.rejected|] == r;
      AllSortedMore(s, t, batch, c, parses, known);
    case Valid(e) =>
      ValidIsCountable(c, parses);
      var r := Rejection(|batch|, Some(e.id), true);
      AreFairMore(s.rejected, batch, c, r, parses, known);
      assert !known(e.recordingUrl) ==> t.rejected[|s.rejected|] == r;
      AllSortedMore(s, t, batch, c, parses, known);
  }

  /** What came of a candidate: it goes on as an event, or there is a rejection with its place. */
  ghost predicate IsSorted(c: Candidate, i: nat, s: Sorted, parses: string -> bool, known: string -> bool) {
    match Validate(c, parses)
    case Valid(e) => if known(e.recordingUrl) then e in s.valid else exists r :: r in s.rejected && r.index == i
    case Malformed(_) => exists r :: r in s.rejected && r.index == i
  }

  /** A rejection carries the candidate's own id, and is final exactly when the candidate is malformed. */
  ghost predicate RejectionIsFair(c: Candidate, r: Rejection, parses: string -> bool, known: string -> bool) {
    match Validate(c, parses)
    case Malformed(id) => !r.retryable && r.id == id
    case Valid(e) => r.retryable && r.id == Some(e.id) && !known(e.recordingUrl)
  }

  /** The route's loop over a batch. */
  method Judge(batch: seq<Candidate>, parses: string -> bool, known: string -> bool) returns (s: Sorted)
    ensures s == Sort(batch, parses, known)
  {
    var valid, rejected := [], [];
    var i := 0;
    while i < |batch|
      invariant 0 <= i <= |batch|
      invariant Sorted(valid, rejected) == Sort(batch[..i], parses, known)
    {
      assert batch[..i + 1][..i] == batch[..i];
      var v := Validate(batch[i], parses);
      if v.Malformed? {
        rejected := rejected + [Rejection(i, v.id, false)];
      } else if !known(v.event.recordingUrl) {
        rejected := rejected + [Rejection(i, Some(v.event.id), true)];
      } else {
        valid := valid + [v.event];
      }
      i := i + 1;
    }
    assert batch[..|batch|] == batch;
    s := Sorted(valid, rejected);
  }
}
