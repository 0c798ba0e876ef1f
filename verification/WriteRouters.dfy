/**
 The write router: submitters look up a book's committer and try to queue their
 job; committers drain, batch, commit and reply, and deregister when idle. One
 step is one atomic action of one task, interleaved freely.
 */
module WriteRouters {
  import opened LedgerTypes

  /** A job is known by the submission it came from. */
  type JobId = nat

  datatype Result = Committed(txid: nat, seqno: nat) | StoreFailed(reason: string)

  datatype Outcome = Answered(r: Result) | CommitterGone

  /** One call of `commit_batch` and what it returned. */
  datatype Commit = Commit(batch: seq<JobId>, results: seq<Result>)

  datatype Committer =
    | Waiting
    | Deregistered
    | Batching(batch: seq<JobId>, draining: bool)
    | Committing(batch: seq<JobId>, draining: bool)
    | Draining
    | Exited

  /** A bounded channel with the committer that receives from it. `accepted` and
      `commits` are its history. */
  datatype Channel = Channel(
    book: string, queue: seq<JobId>, closed: bool, committer: Committer, accepted: seq<JobId>, commits: seq<Commit>)

  datatype Submitter =
    | Routing(book: string)
    | Holding(book: string, ch: nat)
    | Queued(ch: nat)
    | Overloaded

  datatype State = State(
    books: map<string, nat>, channels: seq<Channel>, jobs: map<JobId, Submitter>, answers: map<JobId, Outcome>)

  const Empty: State := State(map[], [], map[], map[])

  datatype Config = Config(queueDepth: nat, batchMax: nat)

  datatype Label =
    | Arrive(j: JobId, book: string)
    | Lookup(j: JobId)
    | TrySend(j: JobId)
    | Receive(ch: nat)
    | Reap(ch: nat)
    | Close(ch: nat)
    | DrainNext(ch: nat)
    | Take(ch: nat)
    | Hand(ch: nat)
    | Reply(ch: nat, results: seq<Result>)

  // ------------------------------------------------------------------
  // Steps
  // ------------------------------------------------------------------

  function Put(s: State, ch: nat, c: Channel): State
    requires ch < |s.channels|
  {
    s.(channels := s.channels[ch := c])
  }

  /** `sender_for`: the registered channel unless it is closed, else a new one
      with a new committer. */
  function SenderFor(s: State, j: JobId, book: string): State {
    if book in s.books && s.books[book] < |s.channels| && !s.channels[s.books[book]].closed then
      s.(jobs := s.jobs[j := Holding(book, s.books[book])])
    else
      s.(channels := s.channels + [Channel(book, [], false, Waiting, [], [])],
         books := s.books[book := |s.channels|],
         jobs := s.jobs[j := Holding(book, |s.channels|)])
  }

  function TrySendTo(cfg: Config, s: State, j: JobId, book: string, ch: nat): State
    requires ch < |s.channels|
  {
    var c := s.channels[ch];
    if c.closed then s.(jobs := s.jobs[j := Routing(book)])
    else if |c.queue| >= cfg.queueDepth then s.(jobs := s.jobs[j := Overloaded])
    else
      Put(s, ch, c.(queue := c.queue + [j], accepted := c.accepted + [j])).(jobs := s.jobs[j := Queued(ch)])
  }

  function SubmitterNext(cfg: Config, s: State, l: Label): Option<State> {
    match l
    case Arrive(j, book) => if j in s.jobs then None else Some(s.(jobs := s.jobs[j := Routing(book)]))
    case Lookup(j) => if j in s.jobs && s.jobs[j].Routing? then Some(SenderFor(s, j, s.jobs[j].book)) else None
    case TrySend(j) =>
      if j in s.jobs && s.jobs[j].Holding? && s.jobs[j].ch < |s.channels| then
        Some(TrySendTo(cfg, s, j, s.jobs[j].book, s.jobs[j].ch))
      else None
    case _ => None
  }

  /** The zip of a batch with its results: job i gets result i; jobs past a short
      result vector lose their reply channel. */
  function OutcomeAt(results: seq<Result>, i: nat): Outcome {
    if i < |results| then Answered(results[i]) else CommitterGone
  }

  function Replies(answers: map<JobId, Outcome>, batch: seq<JobId>, results: seq<Result>): map<JobId, Outcome> {
    if batch == [] then answers
    else
      var n := |batch| - 1;
      Replies(answers, batch[..n], results)[batch[n] := OutcomeAt(results, n)]
  }

  function BatchFull(cfg: Config, c: Channel): bool
    requires c.committer.Batching?
  {
    |c.committer.batch| >= cfg.batchMax || c.queue == []
  }

  /** A committer's steps on its own channel. */
  function Local(cfg: Config, c: Channel, l: Label): Option<Channel> {
    match c.committer
    case Waiting =>
      if l.Receive? && c.queue != [] then Some(c.(queue := c.queue[1..], committer := Batching([c.queue[0]], false)))
      else None
    case Deregistered =>
      if l.Close? then Some(c.(closed := true, committer := Draining)) else None
    case Draining =>
      if !l.DrainNext? then None
      else if c.queue == [] then Some(c.(committer := Exited))
      else Some(c.(queue := c.queue[1..], committer := Batching([c.queue[0]], true)))
    case Batching(batch, draining) =>
      if l.Take? && !BatchFull(cfg, c) then
        Some(c.(queue := c.queue[1..], committer := Batching(batch + [c.queue[0]], draining)))
      else if l.Hand? && BatchFull(cfg, c) then Some(c.(committer := Committing(batch, draining)))
      else None
    case _ => None
  }

  /** An idle committer takes the book's entry out of the map; a finished batch is
      answered. */
  function CommitterNext(cfg: Config, s: State, ch: nat, l: Label): Option<State>
    requires ch < |s.channels|
  {
    var c := s.channels[ch];
    if c.committer.Waiting? && l.Reap? then
      Some(Put(s, ch, c.(committer := Deregistered)).(books := s.books - {c.book}))
    else if c.committer.Committing? && l.Reply? then
      var (batch, draining) := (c.committer.batch, c.committer.draining);
      Some(Put(s, ch, c.(commits := c.commits + [Commit(batch, l.results)],
                         committer := if draining then Draining else Waiting))
           .(answers := Replies(s.answers, batch, l.results)))
    else match Local(cfg, c, l)
      case None => None
      case Some(c') => Some(Put(s, ch, c'))
  }

  function Next(cfg: Config, s: State, l: Label): Option<State> {
    if l.Arrive? || l.Lookup? || l.TrySend? then SubmitterNext(cfg, s, l)
    else if l.ch < |s.channels| then CommitterNext(cfg, s, l.ch, l)
    else None
  }

  function Run(cfg: Config, ls: seq<Label>): Option<State> {
    if ls == [] then Some(Empty)
    else match Run(cfg, ls[..|ls| - 1])
      case None => None
      case Some(s) => Next(cfg, s, ls[|ls| - 1])
  }

  // ------------------------------------------------------------------
  // The invariant
  // ------------------------------------------------------------------

  /** Every job of the batches, in the order they were handed over. */
  function Handed(commits: seq<Commit>): seq<JobId> {
    if commits == [] then [] else Handed(commits[..|commits| - 1]) + commits[|commits| - 1].batch
  }

  /** The batch in the committer's hands. */
  function InHand(c: Channel): seq<JobId> {
    if c.committer.Batching? || c.committer.Committing? then c.committer.batch else []
  }

  /** The committer whose entry is in the map. */
  predicate Registered(c: Channel) {
    c.committer.Waiting?
    || (c.committer.Batching? && !c.committer.draining)
    || (c.committer.Committing? && !c.committer.draining)
  }

  /** Accepted jobs are handed over, in hand or still queued, in that order; none
      twice. */
  ghost predicate ChannelOk(c: Channel) {
    && c.accepted == Handed(c.commits) + InHand(c) + c.queue
    && (forall i, j :: 0 <= i < j < |c.accepted| ==> c.accepted[i] != c.accepted[j])
    && (c.closed <==> !Registered(c) && !c.committer.Deregistered?)
    && (c.committer.Exited? ==> c.queue == [])
  }

  /** Each committed job has the outcome at its own index. */
  ghost predicate OutcomesOk(commits: seq<Commit>, answers: map<JobId, Outcome>) {
    forall n, i :: 0 <= n < |commits| && 0 <= i < |commits[n].batch| ==>
      commits[n].batch[i] in answers && answers[commits[n].batch[i]] == OutcomeAt(commits[n].results, i)
  }

  ghost predicate JobOk(s: State, job: Submitter, j: JobId) {
    && (job.Holding? ==> job.ch < |s.channels| && s.channels[job.ch].book == job.book)
    && (job.Queued? ==> job.ch < |s.channels| && j in s.channels[job.ch].accepted)
  }

  /** An answered job has been handed over. */
  ghost predicate AnsweredOk(s: State, j: JobId) {
    && j in s.jobs && s.jobs[j].Queued? && s.jobs[j].ch < |s.channels|
    && j in Handed(s.channels[s.jobs[j].ch].commits)
  }

  ghost predicate JobsOk(s: State) {
    && (forall ch, j :: 0 <= ch < |s.channels| && j in s.channels[ch].accepted ==> j in s.jobs && s.jobs[j] == Queued(ch))
    && (forall j :: j in s.jobs ==> JobOk(s, s.jobs[j], j))
    && (forall j :: j in s.answers ==> AnsweredOk(s, j))
  }

  /** A book's entry is the one channel whose committer is registered. */
  ghost predicate BooksOk(s: State) {
    && (forall b :: b in s.books ==>
         s.books[b] < |s.channels| && s.channels[s.books[b]].book == b && Registered(s.channels[s.books[b]]))
    && (forall ch :: 0 <= ch < |s.channels| && Registered(s.channels[ch]) ==>
         s.channels[ch].book in s.books && s.books[s.channels[ch].book] == ch)
  }

  ghost predicate ChannelsOk(s: State) {
    forall ch :: 0 <= ch < |s.channels| ==>
      ChannelOk(s.channels[ch]) && OutcomesOk(s.channels[ch].commits, s.answers)
  }

  ghost predicate Inv(s: State) {
    ChannelsOk(s) && JobsOk(s) && BooksOk(s)
  }

  lemma {:induction false} HandedConcat(commits: seq<Commit>, c: Commit)
    ensures Handed(commits + [c]) == Handed(commits) + c.batch
  {
    assert (commits + [c])[..|commits|] == commits;
  }

  lemma {:induction false} HandedHas(commits: seq<Commit>, n: nat, i: nat)
    requires n < |commits| && i < |commits[n].batch|
    ensures commits[n].batch[i] in Handed(commits)
  {
    if n < |commits| - 1 {
      HandedHas(commits[..|commits| - 1], n, i);
    }
  }

  lemma {:induction false} RepliesSet(answers: map<JobId, Outcome>, batch: seq<JobId>, results: seq<Result>)
    requires forall i, j :: 0 <= i < j < |batch| ==> batch[i] != batch[j]
    ensures forall i :: 0 <= i < |batch| ==>
      batch[i] in Replies(answers, batch, results) && Replies(answers, batch, results)[batch[i]] == OutcomeAt(results, i)
    ensures forall j :: j in Replies(answers, batch, results) <==> j in answers || j in batch
    ensures forall j :: j in answers && j !in batch ==> Replies(answers, batch, results)[j] == answers[j]
  {
    if batch != [] {
      var n := |batch| - 1;
      RepliesSet(answers, batch[..n], results);
      assert batch == batch[..n] + [batch[n]];
    }
  }

  // ------------------------------------------------------------------
  // Every step
  // ------------------------------------------------------------------

  /** Replacing a channel by one in order, with the same answers. */
  lemma PutChannels(s: State, ch: nat, c: Channel)
    requires ChannelsOk(s) && ch < |s.channels| && ChannelOk(c) && OutcomesOk(c.commits, s.answers)
    ensures ChannelsOk(Put(s, ch, c))
  {
    hide ChannelOk, OutcomesOk;
  }

  lemma PutJobs(s: State, ch: nat, c: Channel)
    requires JobsOk(s) && ch < |s.channels|
    requires c.accepted == s.channels[ch].accepted && c.book == s.channels[ch].book && c.commits == s.channels[ch].commits
    ensures JobsOk(Put(s, ch, c))
  {
    hide Handed;
    forall j | j in s.jobs
      ensures JobOk(Put(s, ch, c), s.jobs[j], j)
    {
      assert JobOk(s, s.jobs[j], j);
    }
    forall j | j in s.answers
      ensures AnsweredOk(Put(s, ch, c), j)
    {
      assert AnsweredOk(s, j);
    }
  }

  lemma PutBooks(s: State, ch: nat, c: Channel)
    requires BooksOk(s) && ch < |s.channels| && c.book == s.channels[ch].book && Registered(c) == Registered(s.channels[ch])
    ensures BooksOk(Put(s, ch, c))
  {
    hide Registered;
  }

  /** A job not yet queued moves on without being queued. */
  lemma MoveJob(s: State, j: JobId, job: Submitter)
    requires Inv(s) && (j in s.jobs ==> !s.jobs[j].Queued?) && !job.Queued? && JobOk(s, job, j)
    ensures Inv(s.(jobs := s.jobs[j := job]))
  {
    var s' := s.(jobs := s.jobs[j := job]);
    hide ChannelOk, OutcomesOk, Registered, Handed;
    forall ch, i | 0 <= ch < |s.channels| && i in s.channels[ch].accepted
      ensures i in s'.jobs && s'.jobs[i] == Queued(ch)
    {
      assert s.jobs[i] == Queued(ch);
    }
    forall i | i in s'.jobs
      ensures JobOk(s', s'.jobs[i], i)
    {
      assert i != j ==> JobOk(s, s.jobs[i], i);
    }
    forall i | i in s.answers
      ensures AnsweredOk(s', i)
    {
      assert AnsweredOk(s, i);
    }
  }

  lemma AddedJobs(s: State, s': State, added: Channel)
    requires JobsOk(s) && s'.channels == s.channels + [added] && added.accepted == []
    requires s'.jobs == s.jobs && s'.answers == s.answers
    ensures JobsOk(s')
  {
    hide Handed;
    forall i | i in s.jobs
      ensures JobOk(s', s.jobs[i], i)
    {
      assert JobOk(s, s.jobs[i], i);
    }
    forall i | i in s.answers
      ensures AnsweredOk(s', i)
    {
      assert AnsweredOk(s, i);
    }
  }

  lemma AddedChannels(s: State, s': State, added: Channel)
    requires ChannelsOk(s) && s'.channels == s.channels + [added] && s'.answers == s.answers
    requires ChannelOk(added) && OutcomesOk(added.commits, s.answers)
    ensures ChannelsOk(s')
  {
    hide ChannelOk, OutcomesOk;
  }

  lemma AddedBooks(s: State, s': State, added: Channel)
    requires BooksOk(s) && s'.channels == s.channels + [added] && Registered(added)
    requires added.book !in s.books && s'.books == s.books[added.book := |s.channels|]
    ensures BooksOk(s')
  {
    hide Registered;
    assert s'.channels[|s.channels|] == added && forall ch :: 0 <= ch < |s.channels| ==> s'.channels[ch] == s.channels[ch];
  }

  /** A book without a live channel gets a new one. */
  lemma NewChannel(s: State, book: string)
    requires Inv(s) && book !in s.books
    ensures Inv(s.(channels := s.channels + [Channel(book, [], false, Waiting, [], [])], books := s.books[book := |s.channels|]))
  {
    var added := Channel(book, [], false, Waiting, [], []);
    var s' := s.(channels := s.channels + [added], books := s.books[book := |s.channels|]);
    assert Handed([]) == [] && ChannelOk(added) && OutcomesOk(added.commits, s.answers);
    hide ChannelOk, OutcomesOk, Handed, ChannelsOk, JobsOk, BooksOk;
    AddedChannels(s, s', added);
    AddedJobs(s, s', added);
    AddedBooks(s, s', added);
  }

  /** A registered channel is open, so a lookup never replaces an entry: without
      panics a stale sender is never seen. */
  lemma RegisteredIsOpen(s: State, book: string)
    requires Inv(s) && book in s.books
    ensures s.books[book] < |s.channels| && !s.channels[s.books[book]].closed && s.channels[s.books[book]].book == book
  {
    hide OutcomesOk, Handed;
    assert ChannelOk(s.channels[s.books[book]]);
  }

  lemma LookupStep(s: State, j: JobId, book: string)
    requires Inv(s) && j in s.jobs && s.jobs[j].Routing?
    ensures Inv(SenderFor(s, j, book))
  {
    hide ChannelsOk, BooksOk, JobsOk;
    if book in s.books {
      RegisteredIsOpen(s, book);
      MoveJob(s, j, Holding(book, s.books[book]));
    } else {
      NewChannel(s, book);
      var s1 := s.(channels := s.channels + [Channel(book, [], false, Waiting, [], [])], books := s.books[book := |s.channels|]);
      MoveJob(s1, j, Holding(book, |s.channels|));
      assert SenderFor(s, j, book) == s1.(jobs := s1.jobs[j := Holding(book, |s.channels|)]);
    }
  }

  lemma NotAccepted(s: State, j: JobId, ch: nat)
    requires JobsOk(s) && j in s.jobs && !s.jobs[j].Queued? && ch < |s.channels|
    ensures j !in s.channels[ch].accepted && j !in s.answers
  {
    hide Handed;
    assert j in s.answers ==> AnsweredOk(s, j);
  }

  lemma AcceptJobs(s: State, j: JobId, ch: nat, c: Channel)
    requires JobsOk(s) && j in s.jobs && !s.jobs[j].Queued? && ch < |s.channels|
    requires c == s.channels[ch].(queue := c.queue, accepted := s.channels[ch].accepted + [j])
    ensures JobsOk(Put(s, ch, c).(jobs := s.jobs[j := Queued(ch)]))
  {
    hide Handed;
    var s' := Put(s, ch, c).(jobs := s.jobs[j := Queued(ch)]);
    NotAccepted(s, j, ch);
    forall k, i | 0 <= k < |s.channels| && i in s'.channels[k].accepted
      ensures i in s'.jobs && s'.jobs[i] == Queued(k)
    {
      NotAccepted(s, j, k);
    }
    forall i | i in s'.jobs
      ensures JobOk(s', s'.jobs[i], i)
    {
      assert i != j ==> JobOk(s, s.jobs[i], i);
    }
    forall i | i in s.answers
      ensures AnsweredOk(s', i)
    {
      assert AnsweredOk(s, i);
    }
  }

  lemma AcceptChannel(c: Channel, j: JobId)
    requires ChannelOk(c) && !c.closed && j !in c.accepted
    ensures ChannelOk(c.(queue := c.queue + [j], accepted := c.accepted + [j]))
  {
    hide Handed;
    assert Handed(c.commits) + InHand(c) + (c.queue + [j]) == c.accepted + [j];
  }

  lemma IgnoresJobs(s: State, jobs: map<JobId, Submitter>)
    requires ChannelsOk(s) && BooksOk(s)
    ensures ChannelsOk(s.(jobs := jobs)) && BooksOk(s.(jobs := jobs))
  {
    hide ChannelOk, OutcomesOk, Registered;
  }

  lemma TrySendStep(cfg: Config, s: State, j: JobId)
    requires Inv(s) && j in s.jobs && s.jobs[j].Holding? && s.jobs[j].ch < |s.channels|
    ensures Inv(TrySendTo(cfg, s, j, s.jobs[j].book, s.jobs[j].ch))
  {
    var ch := s.jobs[j].ch;
    var c := s.channels[ch];
    assert ChannelOk(c) && OutcomesOk(c.commits, s.answers);
    hide ChannelsOk, BooksOk, JobsOk, ChannelOk, OutcomesOk;
    if c.closed {
      MoveJob(s, j, Routing(s.jobs[j].book));
    } else if |c.queue| >= cfg.queueDepth {
      MoveJob(s, j, Overloaded);
    } else {
      var c' := c.(queue := c.queue + [j], accepted := c.accepted + [j]);
      NotAccepted(s, j, ch);
      AcceptChannel(c, j);
      PutChannels(s, ch, c');
      PutBooks(s, ch, c');
      AcceptJobs(s, j, ch, c');
      IgnoresJobs(Put(s, ch, c'), s.jobs[j := Queued(ch)]);
    }
  }

  lemma SubmitterStep(cfg: Config, s: State, l: Label)
    requires Inv(s) && SubmitterNext(cfg, s, l).Some?
    ensures Inv(SubmitterNext(cfg, s, l).value)
  {
    hide Inv, SenderFor, TrySendTo;
    match l {
      case Arrive(j, book) => MoveJob(s, j, Routing(book));
      case Lookup(j) => LookupStep(s, j, s.jobs[j].book);
      case TrySend(j) => TrySendStep(cfg, s, j);
    }
  }

  /** A committer step that only moves jobs from the queue into its hands. */
  lemma PutStep(s: State, ch: nat, c: Channel)
    requires Inv(s) && ch < |s.channels| && ChannelOk(c) && Registered(c) == Registered(s.channels[ch])
    requires c == s.channels[ch].(queue := c.queue, closed := c.closed, committer := c.committer)
    ensures Inv(Put(s, ch, c))
  {
    assert OutcomesOk(c.commits, s.answers);
    hide ChannelsOk, BooksOk, JobsOk, ChannelOk, OutcomesOk, Registered;
    PutChannels(s, ch, c);
    PutBooks(s, ch, c);
    PutJobs(s, ch, c);
  }

  lemma TakesFront(a: seq<JobId>, b: seq<JobId>, q: seq<JobId>)
    requires q != []
    ensures a + b + q == a + (b + [q[0]]) + q[1..]
  {
  }

  lemma LocalOk(cfg: Config, c: Channel, l: Label)
    requires ChannelOk(c) && Local(cfg, c, l).Some?
    ensures var c' := Local(cfg, c, l).value;
      && ChannelOk(c') && Registered(c') == Registered(c)
      && c' == c.(queue := c'.queue, closed := c'.closed, committer := c'.committer)
  {
    hide Handed;
    if c.queue != [] {
      TakesFront(Handed(c.commits), InHand(c), c.queue);
      assert [] + [c.queue[0]] == [c.queue[0]];
    }
  }

  /** Idle: the committer takes its own entry out of the map, no one else's. */
  lemma ReapStep(s: State, ch: nat)
    requires Inv(s) && ch < |s.channels| && s.channels[ch].committer.Waiting?
    ensures var c := s.channels[ch];
      && c.book in s.books && s.books[c.book] == ch
      && Inv(Put(s, ch, c.(committer := Deregistered)).(books := s.books - {c.book}))
  {
    var c := s.channels[ch];
    var c' := c.(committer := Deregistered);
    assert ChannelOk(c) && OutcomesOk(c.commits, s.answers) && Registered(c);
    assert ChannelOk(c') by { hide Handed; }
    hide ChannelsOk, JobsOk, BooksOk, OutcomesOk, ChannelOk;
    PutChannels(s, ch, c');
    PutJobs(s, ch, c');
    IgnoresBooks(Put(s, ch, c'), s.books - {c.book});
    ReapBooks(s, ch);
  }

  lemma ReapBooks(s: State, ch: nat)
    requires BooksOk(s) && ch < |s.channels| && s.channels[ch].committer.Waiting?
    ensures var c := s.channels[ch];
      && c.book in s.books && s.books[c.book] == ch
      && BooksOk(Put(s, ch, c.(committer := Deregistered)).(books := s.books - {c.book}))
  {
    assert Registered(s.channels[ch]) && !Registered(s.channels[ch].(committer := Deregistered));
    hide Registered;
  }

  lemma IgnoresBooks(s: State, books: map<string, nat>)
    requires ChannelsOk(s) && JobsOk(s)
    ensures ChannelsOk(s.(books := books)) && JobsOk(s.(books := books))
  {
    hide ChannelOk, OutcomesOk, Handed;
    forall i | i in s.jobs
      ensures JobOk(s.(books := books), s.jobs[i], i)
    {
      assert JobOk(s, s.jobs[i], i);
    }
    forall i | i in s.answers
      ensures AnsweredOk(s.(books := books), i)
    {
      assert AnsweredOk(s, i);
    }
  }

  // ------------------------------------------------------------------
  // Replying
  // ------------------------------------------------------------------

  lemma HandedPart(c: Channel)
    requires ChannelOk(c)
    ensures forall j :: j in Handed(c.commits) || j in InHand(c) ==> j in c.accepted
    ensures forall j :: j in Handed(c.commits) ==> j !in InHand(c)
    ensures forall i, j :: 0 <= i < j < |InHand(c)| ==> InHand(c)[i] != InHand(c)[j]
  {
    var h, b := Handed(c.commits), InHand(c);
    hide Handed;
    forall j | j in h || j in b
      ensures j in c.accepted
    {
      assert j in h + b + c.queue;
    }
    assert forall i :: 0 <= i < |h| ==> c.accepted[i] == h[i];
    assert forall i :: 0 <= i < |b| ==> c.accepted[|h| + i] == b[i];
  }

  /** Channels share no job. */
  lemma OtherChannel(s: State, ch: nat, k: nat, j: JobId)
    requires JobsOk(s) && ch < |s.channels| && k < |s.channels| && k != ch && j in s.channels[ch].accepted
    ensures j !in s.channels[k].accepted
  {
    assert s.jobs[j] == Queued(ch);
  }

  lemma OutcomesKept(commits: seq<Commit>, answers: map<JobId, Outcome>, batch: seq<JobId>, results: seq<Result>)
    requires OutcomesOk(commits, answers) && (forall i, j :: 0 <= i < j < |batch| ==> batch[i] != batch[j])
    requires forall j :: j in Handed(commits) ==> j !in batch
    ensures OutcomesOk(commits, Replies(answers, batch, results))
  {
    RepliesSet(answers, batch, results);
    hide Handed, Replies;
    forall n, i | 0 <= n < |commits| && 0 <= i < |commits[n].batch|
      ensures commits[n].batch[i] in Replies(answers, batch, results)
      ensures Replies(answers, batch, results)[commits[n].batch[i]] == OutcomeAt(commits[n].results, i)
    {
      HandedHas(commits, n, i);
    }
  }

  lemma OutcomesAdd(commits: seq<Commit>, answers: map<JobId, Outcome>, batch: seq<JobId>, results: seq<Result>)
    requires OutcomesOk(commits, answers) && (forall i, j :: 0 <= i < j < |batch| ==> batch[i] != batch[j])
    requires forall j :: j in Handed(commits) ==> j !in batch
    ensures OutcomesOk(commits + [Commit(batch, results)], Replies(answers, batch, results))
  {
    OutcomesKept(commits, answers, batch, results);
    RepliesSet(answers, batch, results);
    hide Handed, Replies;
  }

  lemma ReplyChannel(c: Channel, results: seq<Result>)
    requires ChannelOk(c) && c.committer.Committing?
    ensures ChannelOk(c.(commits := c.commits + [Commit(c.committer.batch, results)],
                         committer := if c.committer.draining then Draining else Waiting))
  {
    HandedConcat(c.commits, Commit(c.committer.batch, results));
    hide Handed;
    var h := Handed(c.commits);
    assert h + c.committer.batch + c.queue == (h + c.committer.batch) + [] + c.queue;
  }

  lemma ReplyChannels(s: State, ch: nat, c: Channel, results: seq<Result>)
    requires ChannelsOk(s) && JobsOk(s) && ch < |s.channels| && s.channels[ch].committer.Committing?
    requires c == s.channels[ch].(
      commits := s.channels[ch].commits + [Commit(s.channels[ch].committer.batch, results)], committer := c.committer)
    requires ChannelOk(c)
    ensures ChannelsOk(Put(s, ch, c).(answers := Replies(s.answers, s.channels[ch].committer.batch, results)))
  {
    var batch := s.channels[ch].committer.batch;
    var s' := Put(s, ch, c).(answers := Replies(s.answers, batch, results));
    assert ChannelOk(s.channels[ch]);
    HandedPart(s.channels[ch]);
    hide Handed, ChannelOk, OutcomesOk, Replies, JobsOk;
    forall k | 0 <= k < |s.channels|
      ensures ChannelOk(s'.channels[k]) && OutcomesOk(s'.channels[k].commits, s'.answers)
    {
      if k == ch {
        OutcomesAdd(s.channels[k].commits, s.answers, batch, results);
      } else {
        HandedPart(s.channels[k]);
        forall j | j in Handed(s.channels[k].commits)
          ensures j !in batch
        {
          OtherChannel(s, k, ch, j);
        }
        OutcomesKept(s.channels[k].commits, s.answers, batch, results);
      }
    }
  }

  lemma ReplyJobs(s: State, ch: nat, c: Channel, results: seq<Result>)
    requires JobsOk(s) && ch < |s.channels| && s.channels[ch].committer.Committing? && ChannelOk(s.channels[ch])
    requires c == s.channels[ch].(
      commits := s.channels[ch].commits + [Commit(s.channels[ch].committer.batch, results)], committer := c.committer)
    ensures JobsOk(Put(s, ch, c).(answers := Replies(s.answers, s.channels[ch].committer.batch, results)))
  {
    var batch := s.channels[ch].committer.batch;
    var s' := Put(s, ch, c).(answers := Replies(s.answers, batch, results));
    hide Handed, ChannelOk, Replies, AnsweredOk;
    forall j | j in s.jobs
      ensures JobOk(s', s.jobs[j], j)
    {
      assert JobOk(s, s.jobs[j], j);
    }
    forall j | j in s'.answers
      ensures AnsweredOk(s', j)
    {
      ReplyAnswers(s, ch, c, results, j);
    }
  }

  lemma AcceptedIsQueued(s: State, ch: nat, j: JobId)
    requires JobsOk(s) && ch < |s.channels| && j in s.channels[ch].accepted
    ensures j in s.jobs && s.jobs[j] == Queued(ch)
  {
    hide Handed;
  }

  lemma ReplyAnswers(s: State, ch: nat, c: Channel, results: seq<Result>, j: JobId)
    requires JobsOk(s) && ch < |s.channels| && s.channels[ch].committer.Committing? && ChannelOk(s.channels[ch])
    requires c == s.channels[ch].(
      commits := s.channels[ch].commits + [Commit(s.channels[ch].committer.batch, results)], committer := c.committer)
    requires j in Replies(s.answers, s.channels[ch].committer.batch, results)
    ensures AnsweredOk(Put(s, ch, c).(answers := Replies(s.answers, s.channels[ch].committer.batch, results)), j)
  {
    RepliesDomain(s.channels[ch], s.answers, results, j);
    assert j in s.answers ==> AnsweredOk(s, j);
    hide Handed, Replies, ChannelOk, JobsOk;
    if j in s.answers {
      StillHanded(s, ch, c, results, s.jobs[j].ch, j);
    } else {
      BatchHanded(s.channels[ch], results, j);
      AcceptedIsQueued(s, ch, j);
    }
  }

  lemma RepliesDomain(c: Channel, answers: map<JobId, Outcome>, results: seq<Result>, j: JobId)
    requires ChannelOk(c) && c.committer.Committing? && j in Replies(answers, c.committer.batch, results)
    ensures j in answers || j in c.committer.batch
  {
    HandedPart(c);
    RepliesSet(answers, c.committer.batch, results);
  }

  lemma StillHanded(s: State, ch: nat, c: Channel, results: seq<Result>, k: nat, j: JobId)
    requires ch < |s.channels| && s.channels[ch].committer.Committing? && k < |s.channels|
    requires c.commits == s.channels[ch].commits + [Commit(s.channels[ch].committer.batch, results)]
    requires j in Handed(s.channels[k].commits)
    ensures j in Handed(Put(s, ch, c).channels[k].commits)
  {
    HandedConcat(s.channels[ch].commits, Commit(s.channels[ch].committer.batch, results));
    hide Handed;
  }

  lemma BatchHanded(c: Channel, results: seq<Result>, j: JobId)
    requires ChannelOk(c) && c.committer.Committing? && j in c.committer.batch
    ensures j in c.accepted && j in Handed(c.commits + [Commit(c.committer.batch, results)])
  {
    HandedPart(c);
    HandedConcat(c.commits, Commit(c.committer.batch, results));
    hide Handed;
  }

  lemma ReplyStep(s: State, ch: nat, results: seq<Result>)
    requires Inv(s) && ch < |s.channels| && s.channels[ch].committer.Committing?
    ensures var c := s.channels[ch];
      Inv(Put(s, ch, c.(commits := c.commits + [Commit(c.committer.batch, results)],
                        committer := if c.committer.draining then Draining else Waiting))
          .(answers := Replies(s.answers, c.committer.batch, results)))
  {
    var c := s.channels[ch];
    var c' := c.(commits := c.commits + [Commit(c.committer.batch, results)],
                 committer := if c.committer.draining then Draining else Waiting);
    assert ChannelOk(c);
    hide ChannelsOk, JobsOk, BooksOk, ChannelOk;
    ReplyChannel(c, results);
    ReplyChannels(s, ch, c', results);
    ReplyJobs(s, ch, c', results);
    PutBooks(s, ch, c');
    BooksIgnore(Put(s, ch, c'), Replies(s.answers, c.committer.batch, results));
  }

  lemma BooksIgnore(s: State, answers: map<JobId, Outcome>)
    requires BooksOk(s)
    ensures BooksOk(s.(answers := answers))
  {
    hide Registered;
  }

  lemma StepKeeps(cfg: Config, s: State, l: Label)
    requires Inv(s) && Next(cfg, s, l).Some?
    ensures Inv(Next(cfg, s, l).value)
  {
    if l.Arrive? || l.Lookup? || l.TrySend? {
      SubmitterStep(cfg, s, l);
    } else {
      var c := s.channels[l.ch];
      assert ChannelOk(c);
      hide Inv, ChannelOk, Local, Replies;
      if c.committer.Waiting? && l.Reap? {
        ReapStep(s, l.ch);
      } else if c.committer.Committing? && l.Reply? {
        ReplyStep(s, l.ch, l.results);
      } else {
        LocalOk(cfg, c, l);
        PutStep(s, l.ch, Local(cfg, c, l).value);
      }
    }
  }

  lemma {:induction false} RunKeeps(cfg: Config, ls: seq<Label>)
    requires Run(cfg, ls).Some?
    ensures Inv(Run(cfg, ls).value)
  {
    if ls != [] {
      hide Inv, Next;
      RunKeeps(cfg, ls[..|ls| - 1]);
      StepKeeps(cfg, Run(cfg, ls[..|ls| - 1]).value, ls[|ls| - 1]);
    }
  }

  // ------------------------------------------------------------------
  // Conservation
  // ------------------------------------------------------------------

  /** Every accepted job is, in the order it was accepted, handed to
      `commit_batch`, in hand, or queued; in one channel only and once. */
  lemma HandedOnceInOrder(cfg: Config, ls: seq<Label>, ch: nat)
    requires Run(cfg, ls).Some? && ch < |Run(cfg, ls).value.channels|
    ensures var s := Run(cfg, ls).value;
      var c := s.channels[ch];
      && Handed(c.commits) + InHand(c) <= c.accepted
      && c.accepted[|Handed(c.commits) + InHand(c)|..] == c.queue
      && (forall i, j :: 0 <= i < j < |c.accepted| ==> c.accepted[i] != c.accepted[j])
      && (forall k, j :: 0 <= k < |s.channels| && k != ch && j in c.accepted ==> j !in s.channels[k].accepted)
  {
    RunKeeps(cfg, ls);
    var s := Run(cfg, ls).value;
    assert ChannelOk(s.channels[ch]);
    hide Run, Handed;
    forall k, j | 0 <= k < |s.channels| && k != ch && j in s.channels[ch].accepted
      ensures j !in s.channels[k].accepted
    {
      OtherChannel(s, ch, k, j);
    }
  }

  /** A job is answered exactly when its batch has come back, with the result at
      its own index; a result vector cut short leaves the rest without one. */
  lemma AnsweredWithOwnResult(cfg: Config, ls: seq<Label>, ch: nat, n: nat, i: nat)
    requires Run(cfg, ls).Some? && ch < |Run(cfg, ls).value.channels|
    requires n < |Run(cfg, ls).value.channels[ch].commits| && i < |Run(cfg, ls).value.channels[ch].commits[n].batch|
    ensures var s := Run(cfg, ls).value;
      var commit := s.channels[ch].commits[n];
      && commit.batch[i] in s.answers
      && s.answers[commit.batch[i]] == if i < |commit.results| then Answered(commit.results[i]) else CommitterGone
  {
    RunKeeps(cfg, ls);
    assert OutcomesOk(Run(cfg, ls).value.channels[ch].commits, Run(cfg, ls).value.answers);
  }

  /** Nothing is left behind: a committer that has exited, or waits on an empty
      queue, has handed over and seen answered every job its channel accepted. */
  lemma QuietMeansAnswered(cfg: Config, ls: seq<Label>, ch: nat)
    requires Run(cfg, ls).Some? && ch < |Run(cfg, ls).value.channels|
    requires var c := Run(cfg, ls).value.channels[ch];
      c.committer.Exited? || (c.committer.Waiting? && c.queue == [])
    ensures var s := Run(cfg, ls).value;
      && s.channels[ch].accepted == Handed(s.channels[ch].commits)
      && forall j :: j in s.channels[ch].accepted ==> j in s.answers
  {
    RunKeeps(cfg, ls);
    var s := Run(cfg, ls).value;
    var c := s.channels[ch];
    assert ChannelOk(c) && OutcomesOk(c.commits, s.answers);
    hide Run, Handed, ChannelOk, OutcomesOk;
    assert c.accepted == Handed(c.commits) by { NothingHeld(c); }
    AllAnswered(c.commits, s.answers);
  }

  lemma NothingHeld(c: Channel)
    requires ChannelOk(c) && (c.committer.Exited? || (c.committer.Waiting? && c.queue == []))
    ensures c.accepted == Handed(c.commits)
  {
  }

  lemma {:induction false} AllAnswered(commits: seq<Commit>, answers: map<JobId, Outcome>)
    requires OutcomesOk(commits, answers)
    ensures forall j :: j in Handed(commits) ==> j in answers
  {
    if commits != [] {
      var n := |commits| - 1;
      AllAnswered(commits[..n], answers);
      forall j | j in commits[n].batch
        ensures j in answers
      {
        var i :| 0 <= i < |commits[n].batch| && commits[n].batch[i] == j;
      }
    }
  }

  /** A committer with work left always has a step of its own. */
  lemma CommitterProgress(cfg: Config, s: State, ch: nat, results: seq<Result>) returns (l: Label)
    requires ch < |s.channels|
    ensures var c := s.channels[ch];
      (l.Reply? ==> l.results == results) &&
      (c.committer.Exited? || (c.committer.Waiting? && c.queue == []) || CommitterNext(cfg, s, ch, l).Some?)
  {
    l := match s.channels[ch].committer
      case Waiting => Receive(ch)
      case Deregistered => Close(ch)
      case Draining => DrainNext(ch)
      case Batching(_, _) => if BatchFull(cfg, s.channels[ch]) then Hand(ch) else Take(ch)
      case Committing(_, _) => Reply(ch, results)
      case Exited => Close(ch);
  }

  /** A map entry leaves only when the committer it points to reaps itself. */
  lemma RemovedByOwner(cfg: Config, ls: seq<Label>, l: Label, book: string)
    requires Run(cfg, ls).Some? && Next(cfg, Run(cfg, ls).value, l).Some?
    requires book in Run(cfg, ls).value.books
    ensures var s, s' := Run(cfg, ls).value, Next(cfg, Run(cfg, ls).value, l).value;
      (book in s'.books && s'.books[book] == s.books[book])
      || (book !in s'.books && l == Reap(s.books[book]) && s.books[book] < |s.channels| && s.channels[s.books[book]].book == book)
  {
    RunKeeps(cfg, ls);
    var s := Run(cfg, ls).value;
    RegisteredIsOpen(s, book);
    hide ChannelsOk, JobsOk, BooksOk, Run, Replies, Local, BatchFull;
    if l.Arrive? || l.Lookup? || l.TrySend? {
      SubmitterBooks(cfg, s, l, book);
    } else if l.Reap? && s.channels[l.ch].committer.Waiting? {
      ReapStep(s, l.ch);
    }
  }

  lemma SubmitterBooks(cfg: Config, s: State, l: Label, book: string)
    requires SubmitterNext(cfg, s, l).Some? && book in s.books
    requires s.books[book] < |s.channels| && !s.channels[s.books[book]].closed
    ensures var s' := SubmitterNext(cfg, s, l).value; book in s'.books && s'.books[book] == s.books[book]
  {
  }
}
