/** A session, and the candidate that is built from its record. */
module SessionRuns {
  import opened Basics
  import opened FileSystem
  import opened SessionHistory
  import opened Candidate
  import opened Controller
  import opened ReferenceLoop
  import Utf8

  /** UTF-8 with any injective digest is a codec as the controller needs one. */
  lemma Utf8IsFaithful(sha256: Bytes -> string)
    requires forall a, b :: sha256(a) == sha256(b) ==> a == b
    ensures Codec(Utf8.Encode, Utf8.Decode, sha256).Faithful()
  {
    forall s ensures Utf8.Decode(Utf8.Encode(s)) == s { Utf8.RoundTrip(s); }
  }

  /** The fold over the steps of any session ends where the controller's own bookkeeping does: with the same paths, and
      for each the identifier of the content that was last written. */
  lemma FoldIsKnowledge(c: Setting, l: Ledger)
    requires Sound(c, l)
    ensures Latest(c.codec, l.steps).Some? && Latest(c.codec, l.steps).value.Keys == l.hashes.Keys == l.contents.Keys
    ensures forall p <- l.hashes ::
              && Latest(c.codec, l.steps).value[p].WriteResult?
              && Latest(c.codec, l.steps).value[p].sha256 == l.hashes[p]
              && l.hashes[p] == c.codec.sha256(c.codec.encode(l.contents[p]))
              && p in Replayed(c.codec, c.seed, l.steps)
              && Replayed(c.codec, c.seed, l.steps)[p] == c.codec.encode(l.contents[p])
  {
  }

  /** As long as the workspace is the one accounted for, every file the controller knows of reads back as its last
      write left it; so a finished session gives a candidate exactly if it wrote something. */
  lemma FinishedIsBuildable(c: Setting, l: Ledger, r: Report)
    requires Sound(c, l) && c.codec.Faithful()
    requires r == Report(Finished, l.workspaceGeneration, l.testedGeneration, l.acceptanceGeneration, l.steps)
    requires l.Tested() && (c.test.Some? ==> l.Accepted())
    ensures Buildable(c.codec, r, Replayed(c.codec, c.seed, l.steps)) <==> Writes(l.steps) >= 1
  {
    var w := Replayed(c.codec, c.seed, l.steps);
    FoldIsKnowledge(c, l);
    LatestEmpty(c.codec, l.steps);
    forall p | p in Latest(c.codec, l.steps).value
      ensures Latest(c.codec, l.steps).value[p].WriteResult?
      ensures ReadsBack(c.codec, w, p, Latest(c.codec, l.steps).value[p])
    {
      assert p in l.hashes;
    }
  }

  /** A finished session that wrote something, in a workspace nobody has touched since, gives a candidate: the files
      the controller knows it wrote, with the contents it knows it wrote. No other session does. */
  method RunThenBuild(s: Session, maxIterations: nat) returns (r: Report, c: Option<PromotionCandidate>)
    requires s.Valid() && s.setting.codec.Faithful() && s.ledger.steps == [] && 1 <= maxIterations <= MAX_MAX_ITERATIONS
    modifies s
    ensures c.Some? <==> r.status == Finished && Writes(r.steps) >= 1
    ensures c.Some? ==>
      && c.value.testedGeneration == c.value.workspaceGeneration == Writes(r.steps)
      && c.value.files.Keys == s.ledger.hashes.Keys == s.ledger.contents.Keys
      && forall p <- c.value.files ::
           c.value.files[p].content == s.ledger.contents[p] && c.value.files[p].sha256 == s.ledger.hashes[p]
  {
    r := s.Run(maxIterations);
    c := BuildFrom(s, r);
  }

  method BuildFrom(s: Session, r: Report) returns (c: Option<PromotionCandidate>)
    requires Sound(s.setting, s.ledger) && s.setting.codec.Faithful()
    requires r == Report(r.status, s.ledger.workspaceGeneration, s.ledger.testedGeneration,
                         s.ledger.acceptanceGeneration, s.ledger.steps)
    requires r.status == Finished ==> s.Valid() && s.ledger.Tested() && (s.setting.test.Some? ==> s.ledger.Accepted())
    ensures c.Some? <==> r.status == Finished && Writes(r.steps) >= 1
    ensures c.Some? ==>
      && c.value.testedGeneration == c.value.workspaceGeneration == Writes(r.steps)
      && c.value.files.Keys == s.ledger.hashes.Keys == s.ledger.contents.Keys
      && forall p <- c.value.files ::
           c.value.files[p].content == s.ledger.contents[p] && c.value.files[p].sha256 == s.ledger.hashes[p]
  {
    if r.status == Finished {
      FinishedIsBuildable(s.setting, s.ledger, r);
      FoldIsKnowledge(s.setting, s.ledger);
    }
    c := Build(s.setting.codec, r, s.workspace);
  }
}
