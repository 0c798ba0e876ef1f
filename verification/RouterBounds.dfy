/** When a submitter is refused and how much is handed over at once: the bounds of
    the queues and batches, over every run of the router. */
module RouterBounds {
  import opened LedgerTypes
  import opened WriteRouters

  /** No queue is longer than its depth, no batch empty or longer than allowed. */
  ghost predicate Bounded(cfg: Config, c: Channel) {
    && |c.queue| <= cfg.queueDepth
    && (c.committer.Batching? || c.committer.Committing? ==> 1 <= |c.committer.batch| <= Max(1, cfg.batchMax))
    && forall n :: 0 <= n < |c.commits| ==> 1 <= |c.commits[n].batch| <= Max(1, cfg.batchMax)
  }

  ghost predicate AllBounded(cfg: Config, s: State) {
    forall ch :: 0 <= ch < |s.channels| ==> Bounded(cfg, s.channels[ch])
  }

  lemma {:induction false} LocalBounded(cfg: Config, c: Channel, l: Label)
    requires Bounded(cfg, c) && Local(cfg, c, l).Some?
    ensures Bounded(cfg, Local(cfg, c, l).value)
  {
  }

  lemma {:induction false} CommitterBounded(cfg: Config, s: State, ch: nat, l: Label)
    requires AllBounded(cfg, s) && ch < |s.channels| && CommitterNext(cfg, s, ch, l).Some?
    ensures AllBounded(cfg, CommitterNext(cfg, s, ch, l).value)
  {
    var c := s.channels[ch];
    assert Bounded(cfg, c);
    hide Local, Replies;
    if !(c.committer.Waiting? && l.Reap?) && !(c.committer.Committing? && l.Reply?) {
      LocalBounded(cfg, c, l);
    }
  }

  lemma {:induction false} SubmitterBounded(cfg: Config, s: State, l: Label)
    requires AllBounded(cfg, s) && SubmitterNext(cfg, s, l).Some?
    ensures AllBounded(cfg, SubmitterNext(cfg, s, l).value)
  {
  }

  /** Over every run: each queue holds at most `queueDepth` jobs, and each batch handed
      over holds at least one and at most `batchMax`. */
  lemma {:induction false} RunBounded(cfg: Config, ls: seq<Label>, ch: nat)
    requires Run(cfg, ls).Some? && ch < |Run(cfg, ls).value.channels|
    ensures var c := Run(cfg, ls).value.channels[ch];
      && |c.queue| <= cfg.queueDepth
      && forall n :: 0 <= n < |c.commits| ==> 1 <= |c.commits[n].batch| <= Max(1, cfg.batchMax)
  {
    StatesBounded(cfg, ls);
    assert Bounded(cfg, Run(cfg, ls).value.channels[ch]);
    hide Run;
  }

  lemma {:induction false} StatesBounded(cfg: Config, ls: seq<Label>)
    requires Run(cfg, ls).Some?
    ensures AllBounded(cfg, Run(cfg, ls).value)
  {
    hide Bounded, CommitterNext, SubmitterNext;
    if ls != [] {
      var n := |ls| - 1;
      StatesBounded(cfg, ls[..n]);
      var s, l := Run(cfg, ls[..n]).value, ls[n];
      if l.Arrive? || l.Lookup? || l.TrySend? {
        SubmitterBounded(cfg, s, l);
      } else {
        CommitterBounded(cfg, s, l.ch, l);
      }
    }
  }

  /** What a submitter gets, in any state a run reaches: refused if and only if its
      channel is open and holds exactly `queueDepth` jobs; sent back to look up again
      if and only if the channel is closed; and otherwise queued last. Nothing else
      changes. */
  lemma {:induction false} SendExactly(cfg: Config, ls: seq<Label>, j: JobId)
    requires Run(cfg, ls).Some? && Next(cfg, Run(cfg, ls).value, TrySend(j)).Some?
    ensures var s, s' := Run(cfg, ls).value, Next(cfg, Run(cfg, ls).value, TrySend(j)).value;
      && j in s.jobs && s.jobs[j].Holding? && s.jobs[j].ch < |s.channels|
      && var ch, c := s.jobs[j].ch, s.channels[s.jobs[j].ch];
         && j in s'.jobs && |s'.channels| == |s.channels|
         && (s'.jobs[j] == Overloaded <==> !c.closed && |c.queue| == cfg.queueDepth)
         && (s'.jobs[j] == Routing(c.book) <==> c.closed)
         && (s'.jobs[j] == Queued(ch) <==> !c.closed && |c.queue| < cfg.queueDepth)
         && s'.channels[ch].queue == (if s'.jobs[j].Queued? then c.queue + [j] else c.queue)
         && s'.channels[ch].book == c.book && s'.channels[ch].commits == c.commits
         && (forall k :: 0 <= k < |s.channels| && k != ch ==> s'.channels[k] == s.channels[k])
         && (forall i :: i in s.jobs && i != j ==> i in s'.jobs && s'.jobs[i] == s.jobs[i])
         && s'.books == s.books && s'.answers == s.answers
  {
    RunKeeps(cfg, ls);
    var s := Run(cfg, ls).value;
    StatesBounded(cfg, ls);
    assert Bounded(cfg, s.channels[s.jobs[j].ch]);
    assert JobOk(s, s.jobs[j], j);
    hide Run, ChannelsOk, BooksOk, JobsOk, Handed;
  }

  /** A refused job was never accepted by any channel and is never answered, and
      whatever happens next it stays refused. */
  lemma {:induction false} RefusedForGood(cfg: Config, ls: seq<Label>, j: JobId, l: Label)
    requires Run(cfg, ls).Some? && j in Run(cfg, ls).value.jobs && Run(cfg, ls).value.jobs[j] == Overloaded
    ensures var s := Run(cfg, ls).value;
      && j !in s.answers && (forall ch :: 0 <= ch < |s.channels| ==> j !in s.channels[ch].accepted)
      && (Next(cfg, s, l).Some? ==> j in Next(cfg, s, l).value.jobs && Next(cfg, s, l).value.jobs[j] == Overloaded)
  {
    RunKeeps(cfg, ls);
    hide Run;
    NotTaken(Run(cfg, ls).value, j);
    hide Inv;
    JobStays(cfg, Run(cfg, ls).value, j, l);
  }

  lemma {:induction false} NotTaken(s: State, j: JobId)
    requires Inv(s) && j in s.jobs && s.jobs[j] == Overloaded
    ensures j !in s.answers && forall ch :: 0 <= ch < |s.channels| ==> j !in s.channels[ch].accepted
  {
    hide ChannelsOk, BooksOk, Handed;
  }

  lemma {:induction false} JobStays(cfg: Config, s: State, j: JobId, l: Label)
    requires j in s.jobs && s.jobs[j] == Overloaded
    ensures Next(cfg, s, l).Some? ==> j in Next(cfg, s, l).value.jobs && Next(cfg, s, l).value.jobs[j] == Overloaded
  {
    hide Local, Replies;
  }

  /** A submitter that is not done yet always has a step. */
  lemma {:induction false} SubmitterProgress(cfg: Config, ls: seq<Label>, j: JobId)
    requires Run(cfg, ls).Some? && j in Run(cfg, ls).value.jobs
    ensures var s := Run(cfg, ls).value;
      && (s.jobs[j].Routing? ==> Next(cfg, s, Lookup(j)).Some?)
      && (s.jobs[j].Holding? ==> Next(cfg, s, TrySend(j)).Some?)
  {
    RunKeeps(cfg, ls);
    var s := Run(cfg, ls).value;
    assert JobOk(s, s.jobs[j], j);
    hide Run, ChannelsOk, BooksOk, JobsOk, Handed;
  }

  /** A committer closes a batch exactly when it is full or nothing is queued, and
      takes the next queued job otherwise: it neither waits nor leaves jobs behind. */
  lemma {:induction false} HandsExactly(cfg: Config, ls: seq<Label>, ch: nat)
    requires Run(cfg, ls).Some? && ch < |Run(cfg, ls).value.channels|
    requires Run(cfg, ls).value.channels[ch].committer.Batching?
    ensures var s := Run(cfg, ls).value;
      var c := s.channels[ch];
      && (Next(cfg, s, Hand(ch)).Some? <==> |c.committer.batch| == Max(1, cfg.batchMax) || c.queue == [])
      && (Next(cfg, s, Take(ch)).Some? <==> |c.committer.batch| < Max(1, cfg.batchMax) && c.queue != [])
      && (Next(cfg, s, Take(ch)).Some? ==>
           var c' := Next(cfg, s, Take(ch)).value.channels[ch];
           c'.committer.Batching? && c'.committer.batch == c.committer.batch + [c.queue[0]] && c'.queue == c.queue[1..])
  {
    StatesBounded(cfg, ls);
    assert Bounded(cfg, Run(cfg, ls).value.channels[ch]);
    hide Run;
  }
}
