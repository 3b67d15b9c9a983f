/** jobs.service.ts and the create transaction of jobs.repository.ts: submitting and cancelling jobs. */
module Submission {
  import opened Rows
  import opened Database
  import opened World

  // ---- the submission key

  /** What String.prototype.trim removes: ECMAScript WhiteSpace and LineTerminator. */
  predicate Space(c: char) {
    var x := c as int;
    || 0x09 <= x <= 0x0D || x == 0x20 || x == 0xA0 || x == 0x1680 || 0x2000 <= x <= 0x200A
    || x == 0x2028 || x == 0x2029 || x == 0x202F || x == 0x205F || x == 0x3000 || x == 0xFEFF
  }

  /** Tab, line feed, vertical tab, form feed, carriage return, and the Unicode spaces and separators. */
  const SPACES := [
    '\U{9}', '\U{A}', '\U{B}', '\U{C}', '\U{D}', '\U{20}', '\U{A0}', '\U{1680}',
    '\U{2000}', '\U{2001}', '\U{2002}', '\U{2003}', '\U{2004}', '\U{2005}', '\U{2006}', '\U{2007}',
    '\U{2008}', '\U{2009}', '\U{200A}', '\U{2028}', '\U{2029}', '\U{202F}', '\U{205F}', '\U{3000}', '\U{FEFF}']

  lemma SpacesListed(c: char)
    ensures Space(c) <==> c in SPACES
  {
    if Space(c) {
      var x := c as int;
      var i :=
        if x <= 0x0D then x - 9 else if x == 0x20 then 5 else if x == 0xA0 then 6 else if x == 0x1680 then 7
        else if x <= 0x200A then 8 + x - 0x2000 else if x == 0x2028 then 19 else if x == 0x2029 then 20
        else if x == 0x202F then 21 else if x == 0x205F then 22 else if x == 0x3000 then 23 else 24;
      assert SPACES[i] == c;
    }
  }

  predicate Spaces(s: string) { forall c :: c in s ==> Space(c) }

  /** No space at either end. */
  predicate Tight(s: string) { s == "" || (!Space(s[0]) && !Space(s[|s| - 1])) }

  function TrimStart(s: string): string {
    if s == "" || !Space(s[0]) then s else TrimStart(s[1..])
  }

  function TrimEnd(s: string): string {
    if s == "" || !Space(s[|s| - 1]) then s else TrimEnd(s[..|s| - 1])
  }

  function Trim(s: string): string { TrimEnd(TrimStart(s)) }

  lemma {:induction false} TrimStartSplits(s: string)
    ensures |TrimStart(s)| <= |s|
    ensures Spaces(s[..|s| - |TrimStart(s)|]) && s[|s| - |TrimStart(s)|..] == TrimStart(s)
    ensures TrimStart(s) == "" || !Space(TrimStart(s)[0])
  {
    if s != "" && Space(s[0]) {
      TrimStartSplits(s[1..]);
      assert s == [s[0]] + s[1..];
    }
  }

  lemma {:induction false} TrimEndSplits(s: string)
    ensures |TrimEnd(s)| <= |s| && s[..|TrimEnd(s)|] == TrimEnd(s) && Spaces(s[|TrimEnd(s)|..])
    ensures TrimEnd(s) == "" || !Space(TrimEnd(s)[|TrimEnd(s)| - 1])
  {
    if s != "" && Space(s[|s| - 1]) {
      TrimEndSplits(s[..|s| - 1]);
      assert s == s[..|s| - 1] + [s[|s| - 1]];
    }
  }

  /** Spaces, a key without outer spaces, spaces. */
  ghost predicate Splits(s: string, before: string, key: string, after: string) {
    s == before + key + after && Spaces(before) && Spaces(after) && Tight(key)
  }

  /** Trimming takes spaces off both ends, and nothing but spaces. */
  lemma TrimSplits(s: string) returns (before: string, after: string)
    ensures Splits(s, before, Trim(s), after)
  {
    var middle := TrimStart(s);
    TrimStartSplits(s);
    TrimEndSplits(middle);
    before, after := s[..|s| - |middle|], middle[|Trim(s)|..];
    assert s == before + middle && middle == Trim(s) + after;
  }

  lemma SplitSpaces(s: string, before: string, key: string, after: string)
    requires Splits(s, before, key, after)
    ensures forall i :: 0 <= i < |before| || |before| + |key| <= i < |s| ==> Space(s[i])
    ensures key != "" ==> !Space(s[|before|]) && !Space(s[|before| + |key| - 1])
    ensures forall i :: 0 <= i < |key| ==> key[i] == s[|before| + i]
  {
    forall i | 0 <= i < |before| || |before| + |key| <= i < |s|
      ensures Space(s[i])
    {
      assert s[i] == if i < |before| then before[i] else after[i - |before| - |key|];
    }
  }

  /** There is only one way to do that: any such split of a key finds the trimmed key. */
  lemma TrimIsTheOnlySplit(s: string, before: string, key: string, after: string)
    requires Splits(s, before, key, after)
    ensures key == Trim(s)
  {
    var before', after' := TrimSplits(s);
    var key' := Trim(s);
    SplitSpaces(s, before, key, after);
    SplitSpaces(s, before', key', after');
    if key == "" || key' == "" {
      assert forall i :: 0 <= i < |s| ==> Space(s[i]);
    } else {
      assert |before| == |before'| && |key| == |key'|;
    }
  }

  /** String length: a character beyond the basic plane is two UTF-16 code units. */
  function Length(s: string): nat {
    if s == "" then 0 else (if s[0] as int >= 0x1_0000 then 2 else 1) + Length(s[1..])
  }

  /** Where the characters beyond the basic plane are. */
  function WideAt(s: string): set<nat> { set i: nat | i < |s| && s[i] as int >= 0x1_0000 }

  lemma {:induction false} LengthSnoc(s: string, c: char)
    ensures Length(s + [c]) == Length(s) + if c as int >= 0x1_0000 then 2 else 1
  {
    if s == "" {
      assert [c][1..] == "";
    } else {
      assert (s + [c])[1..] == s[1..] + [c];
      LengthSnoc(s[1..], c);
    }
  }

  lemma {:induction false} LengthCounts(s: string)
    ensures Length(s) == |s| + |WideAt(s)|
  {
    if s != "" {
      var front, last := s[..|s| - 1], s[|s| - 1];
      assert s == front + [last];
      LengthSnoc(front, last);
      LengthCounts(front);
      assert WideAt(s) == WideAt(front) + if last as int >= 0x1_0000 then {|front|} else {};
    } else {
      assert WideAt(s) == {};
    }
  }

  /** None is the 400 answer. `generated` is the UUID used when the client sends no key. */
  function ResolveIdempotencyKey(key: Option<string>, generated: string): Option<string> {
    if key.None? then Some(generated)
    else if 1 <= Length(Trim(key.value)) <= 200 then Some(Trim(key.value))
    else None
  }

  /** Two client keys are the same submission if and only if they differ by outer spaces only. */
  lemma SameKeyIff(key: string, key': string, generated: string, generated': string)
    requires ResolveIdempotencyKey(Some(key), generated).Some?
    ensures ResolveIdempotencyKey(Some(key'), generated') == ResolveIdempotencyKey(Some(key), generated) <==>
            exists before, after :: Splits(key', before, Trim(key), after)
  {
    var b, a := TrimSplits(key);
    if before, after :| Splits(key', before, Trim(key), after) {
      TrimIsTheOnlySplit(key', before, Trim(key), after);
    }
    var b', a' := TrimSplits(key');
    if Trim(key') == Trim(key) {
      assert Splits(key', b', Trim(key), a');
    }
  }

  // ---- the tables

  function CreatedCell(job: Job, key: string): Cell {
    Cell(job, Record(key, Pending, None), map[], map[], map[], map[], NO_HISTORY)
  }

  /** The index and the records agree: one record with its own key per job. */
  ghost predicate Indexed(views: map<JobId, Cell>, index: map<string, JobId>) {
    && (forall key :: key in index ==> index[key] in views && views[index[key]].record.key == key)
    && (forall j :: j in views ==> views[j].record.key in index && index[views[j].record.key] == j)
  }

  lemma StaysIndexed(views: map<JobId, Cell>, index: map<string, JobId>, id: JobId, job: Job, key: string)
    requires Indexed(views, index) && id !in views && key !in index
    ensures Indexed(views[id := CreatedCell(job, key)], index[key := id])
  {
  }

  /** The tables are the tables of that world. */
  ghost predicate Shows(views: map<JobId, Cell>, index: map<string, JobId>, w: World) {
    views == CellsOf(w) && index == w.first
  }

  /** What the transaction does to the tables is what a submission does to the world. */
  lemma SubmissionShows(views: map<JobId, Cell>, index: map<string, JobId>, w: World, id: JobId, job: Job, key: string)
    requires Shows(views, index, w) && id !in views
    ensures
      if key in index then Shows(views, index, SubmitTo(w, id, job, key))
      else Shows(views[id := CreatedCell(job, key)], index[key := id], SubmitTo(w, id, job, key))
  {
  }

  /** `index` is the unique index on idempotency_records.idempotency_key. */
  class JobTables {
    var rows: map<JobId, JobRows>
    var index: map<string, JobId>

    ghost predicate Distinct()
      reads this`rows
    {
      forall i, j :: i in rows && j in rows && i != j ==> rows[i] != rows[j]
    }

    ghost predicate Valid()
      reads this, set j | j in rows :: rows[j]
    {
      Distinct() && Indexed(Views(), index)
    }

    ghost function Views(): (views: map<JobId, Cell>)
      reads this`rows, set j | j in rows :: rows[j]
      ensures views.Keys == rows.Keys
    {
      map j | j in rows :: rows[j].View()
    }

    constructor ()
      ensures Valid() && rows == map[] && index == map[]
    {
      rows, index := map[], map[];
    }

    /** Inserts the job, then its key; a key already in use takes the job back and finds the first one. */
    method CreateJobWithIdempotency(id: JobId, job: Job, key: string) returns (found: JobId, deduplicated: bool)
      requires Valid() && id !in rows
      modifies this
      ensures Valid()
      ensures deduplicated <==> key in old(index)
      ensures deduplicated ==> rows == old(rows)
      ensures key in index && found == index[key]
      ensures index == if deduplicated then old(index) else old(index)[key := id]
      ensures Views() == if deduplicated then old(Views()) else old(Views())[id := CreatedCell(job, key)]
    {
      hide Indexed, CreatedCell;
      ghost var was := Views();
      var saved := rows;
      InsertJob(id, job, key);
      if key in index {
        rows := saved;
        return index[key], true;
      }
      StaysIndexed(was, index, id, job, key);
      index := index[key := id];
      return id, false;
    }

    method InsertJob(id: JobId, job: Job, key: string)
      requires Distinct() && id !in rows
      modifies this`rows
      ensures Distinct()
      ensures Views() == old(Views())[id := CreatedCell(job, key)]
    {
      var row := new JobRows(job, key);
      rows := rows[id := row];
    }
  }

  /** As many jobs as keys. */
  lemma OneJobPerKey(tables: JobTables)
    requires tables.Valid()
    ensures |tables.rows| == |tables.index|
  {
    SameSize(tables.index, tables.rows.Keys, map j | j in tables.rows :: tables.Views()[j].record.key);
    assert |tables.rows.Keys| == |tables.rows|;
  }

  // ---- the services

  /** `UnreadableDate`: a string that is no date, which the INSERT refuses. */
  datatype RunAt = NoDate | UnreadableDate | At(at: Time)

  datatype Request = Request(immediate: bool, runAt: RunAt, maxAttempts: nat, hasHandler: bool, key: Option<string>)

  datatype Answer =
    | Accepted(job: JobId, deduplicated: bool)
    | BadRequest
    | InsertFailed

  /** The request gets as far as the create transaction: it has a run time, and a key of legal length. */
  predicate WellFormed(request: Request) {
    && (request.immediate || !request.runAt.NoDate?)
    && (request.key.Some? ==> 1 <= Length(Trim(request.key.value)) <= 200)
  }

  predicate Insertable(request: Request) { request.immediate || request.runAt.At? }

  function JobOf(request: Request, now: Time): Job
    requires Insertable(request)
  {
    Job(JobScheduled, request.maxAttempts, if request.immediate then now else request.runAt.at,
        request.hasHandler, now)
  }

  function KeyOf(request: Request, generated: string): string {
    if request.key.None? then generated else Trim(request.key.value)
  }

  /** `id` and `generated` are the fresh job id and the fresh key in case one is needed. */
  method CreateJobService(tables: JobTables, request: Request, id: JobId, generated: string, now: Time)
    returns (answer: Answer)
    requires tables.Valid() && id !in tables.rows && generated !in tables.index
    modifies tables
    ensures tables.Valid()
    ensures answer.BadRequest? <==>
      || (!request.immediate && request.runAt.NoDate?)
      || (request.key.Some? && !(1 <= Length(Trim(request.key.value)) <= 200))
    ensures answer.InsertFailed? <==> WellFormed(request) && !Insertable(request)
    ensures !answer.Accepted? ==> tables.rows == old(tables.rows) && tables.index == old(tables.index)
    ensures answer.Accepted? ==>
      && answer.deduplicated == (KeyOf(request, generated) in old(tables.index))
      && KeyOf(request, generated) in tables.index && answer.job == tables.index[KeyOf(request, generated)]
      && (!answer.deduplicated ==>
            && answer.job == id
            && tables.Views()[id].job ==
               Job(JobScheduled, request.maxAttempts,
                   if request.immediate then now else request.runAt.at, request.hasHandler, now))
      && forall w :: old(Shows(tables.Views(), tables.index, w)) ==>
           Shows(tables.Views(), tables.index, SubmitTo(w, id, JobOf(request, now), KeyOf(request, generated)))
  {
    hide SubmitTo, Trim, Length, Shows;
    var runAt := At(now);
    if !request.immediate {
      if request.runAt.NoDate? {
        return BadRequest;
      }
      runAt := request.runAt;
    }
    var key := ResolveIdempotencyKey(request.key, generated);
    if key.None? {
      return BadRequest;
    }
    if !runAt.At? {
      return InsertFailed;
    }
    var job := Job(JobScheduled, request.maxAttempts, runAt.at, request.hasHandler, now);
    ghost var views, index := tables.Views(), tables.index;
    var found, deduplicated := tables.CreateJobWithIdempotency(id, job, key.value);
    answer := Accepted(found, deduplicated);
    forall w | Shows(views, index, w)
      ensures Shows(tables.Views(), tables.index, SubmitTo(w, id, job, key.value))
    {
      SubmissionShows(views, index, w, id, job, key.value);
    }
  }
}
