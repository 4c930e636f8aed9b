/**
 Concrete inputs on which the programs fall short of what their callers would expect; the exact
 conditions are the theorems named in each comment.
 */
module Counterexamples {
  import opened Wrappers
  import opened Identifiers
  import opened Text
  import opened Listing
  import opened KbModel
  import opened KbSpec
  import opened KbIndex
  import opened KbRuns
  import opened KbMoves
  import KbSound
  import K = KbService
  import R = Recovery
  import T = TaskService
  import TR = TaskRuns
  import A = Artifacts
  import W = Workflow
  import F = FtsQuery

  /** A smallest claim, with id "x". */
  const CLAIM := Payload(
    Some("x"), Some("claim"), None, None, None, None, None, None, None, None,
    Body(Some("t"), None, None, [], None, None, map[], map["subject" := "s", "predicate" := "p", "statement" := "q"]))

  const CREATION := K.SvcCreate(CLAIM, "", true)

  lemma ClaimIsAccepted()
    ensures PlanUpsert(EMPTY, CLAIM.(status := Some(CANDIDATE)), Some("candidate"), "").1.Ok?
    ensures Validate("x") == Some("x")
  {
    ClaimTexts();
    hide Trim, IsIdentifier, RequiredTexts, AllowedTexts, BodyAccepted;
    var item := Prepare(CLAIM.(status := Some(CANDIDATE)), None, Candidate, "");
    assert item.body == CLAIM.body;
    assert ValidateAs(Claim, item).Some?;
  }

  lemma ClaimTexts()
    ensures BodyAccepted(Claim, CLAIM.body) && Trim("claim") == "claim"
    ensures Validate("x") == Some("x")
  {
    TrimFixed("claim");
    IdentifierIsTrimmed("x");
    assert CLAIM.body.texts.Keys == {"subject", "predicate", "statement"};
  }

  /** The store after the claim was created: "x" is a candidate. */
  lemma AfterCreation()
    ensures var w := K.ServiceRun([CREATION]);
            && Inv(w.kb) && K.Conserved(w) && "x" in w.kb.manifest && w.kb.manifest["x"].tier == Candidate
            && Validate("x") == Some("x") && IsIdentifier("x")
  {
    hide Inv, K.Conserved, PlanUpsert, K.ServiceStep, Validate, IsIdentifier;
    K.RunConserves([CREATION]);
    assert [CREATION][..0] == [];
    EmptyInv();
    ClaimIsAccepted();
    ValidIsIdentifier();
    CreatedIsCandidate();
  }

  lemma ValidIsIdentifier()
    requires Validate("x") == Some("x")
    ensures IsIdentifier("x")
  {
  }

  lemma CreatedIsCandidate()
    requires PlanUpsert(EMPTY, CLAIM.(status := Some(CANDIDATE)), Some("candidate"), "").1.Ok?
    requires Validate("x") == Some("x")
    requires Inv(EMPTY)
    ensures var kb := K.ServiceStep(K.World(EMPTY, map[]), CREATION).kb;
            "x" in kb.manifest && kb.manifest["x"].tier == Candidate
  {
    hide Inv, PlanUpsert, Commit, RollBack, Indexable, Validate, K.StoreHalf;
    K.HalfHolds(K.World(EMPTY, map[]), CREATION);
    K.StepHistory(K.World(EMPTY, map[]), CREATION, "");
    assert K.StoreHalf(K.World(EMPTY, map[]), CREATION).1.Ok? by { CreationSucceeds(); }
    assert K.SpelledId(K.World(EMPTY, map[]), CREATION) == "x";
  }

  lemma CreationSucceeds()
    requires PlanUpsert(EMPTY, CLAIM.(status := Some(CANDIDATE)), Some("candidate"), "").1.Ok?
    ensures K.StoreHalf(K.World(EMPTY, map[]), CREATION).1.Ok?
  {
    hide PlanUpsert;
  }

  /** KbService.StepConservesExactly: promoting "x " publishes "x", answers with an error, and leaves
      the ledger one revision behind. */
  lemma PaddedPromotion()
    ensures var w := K.ServiceRun([CREATION]);
            var (w2, r) := K.ServicePromote(w, "x ", "someone", None, "", true);
            && r == Err(Invalid) && w2.ledger == w.ledger && !K.Conserved(w2)
            && "x" in w2.kb.manifest && w2.kb.manifest["x"].tier == Canonical
  {
    hide Inv, K.Conserved, K.ServiceRun, Promote, KbSound.Sound;
    AfterCreation();
    var w := K.ServiceRun([CREATION]);
    KbSound.InvIsSound(w.kb);
    PromoteExactly(w.kb, "x", "someone", None, "", true);
    PromoteKeepsInv(w.kb, "x", "someone", None, "", true);
    assert "x" + " " == "x ";
    K.PaddedPromoteBreaks(w, "x", "someone", None, "");
  }

  /** A workspace with nothing but a knowledge base. */
  function SpaceOf(kb: State): R.Space {
    R.Space(Some(map[]), Some(R.KbTree(kb.disk, Some(R.ManifestDb(kb.manifest, kb.fts)), map[])), None, map[])
  }

  /** Recovery.RestoreOfStore: a workspace with one candidate can be backed up, but restoring it raises
      after everything has been put back. */
  lemma CandidateBlocksRestore(target: R.Space)
    ensures var kb := K.ServiceRun([CREATION]).kb;
            var ws := SpaceOf(kb);
            var roots := R.Roots(false, {});
            && R.Backup(ws, roots, false).Ok?
            && R.Restore(target, R.Backup(ws, roots, false).value, roots).1 == Err(Invalid)
  {
    hide Inv, K.Conserved, K.ServiceRun, R.Restore, R.Backup, R.AllCanonical;
    AfterCreation();
    var kb := K.ServiceRun([CREATION]).kb;
    var ws := SpaceOf(kb);
    assert R.Backup(ws, R.Roots(false, {}), false).Ok? by { BackedUp(ws); }
    SyncedPointsInv(kb);
    RowItem(kb, "x");
    R.RestoreOfStore(ws, target, R.Roots(false, {}), R.Roots(false, {}), false);
    R.AllCanonicalExactly(kb);
  }

  lemma BackedUp(ws: R.Space)
    requires ws.tasks.Some? && ws.kb.Some? && ws.kb.value.db.Some?
    ensures R.Backup(ws, R.Roots(false, {}), false).Ok?
  {
  }

  /** KbRuns.RebuildKeepsInvExactly: on the store with the one candidate "x" a rebuild whose first
      transaction raises leaves the file and no row. Publishing "x" then leaves two files, and the next
      opening serves the candidate; an upsert that fails instead takes the object away. */
  lemma RaisedRebuild()
    ensures var kb := K.ServiceRun([CREATION]).kb;
            && "x" in kb.manifest && kb.manifest["x"].file in kb.disk
            && var x := kb.disk[kb.manifest["x"].file];
            var raised := RebuildUntil(kb, Some(0)).0;
            && raised == State(kb.disk, map[], []) && !Inv(raised)
            && var (published, r) := Upsert(raised, x, Some("canonical"), "", true);
            && r.Ok? && !OneFile(published.disk)
            && KbSound.ObjectOf(Recover(published).0, "x") == Some(x)
            && KbSound.ObjectOf(Recover(Upsert(raised, x, Some("candidate"), "", false).0).0, "x") == None
  {
    hide Inv, K.Conserved, K.ServiceRun, RebuildUntil, Upsert, Recover, KbSound.ObjectOf, WellFormed;
    AfterCreation();
    var kb := K.ServiceRun([CREATION]).kb;
    RowItem(kb, "x");
    SyncedPointsInv(kb);
    var p := kb.manifest["x"].file;
    assert OneFile(kb.disk) by { KbSound.InvIsSound(kb); }
    RaisedAtFirst(kb);
    RebuildKeepsInvExactly(kb, Some(0));
    RaisedThenUpsertIsLost(kb, p, "");
    RaisedThenFailureDeletes(kb, p, "");
  }

  /** TaskRuns.StepReplaysExactly: archiving "t " archives "t", answers with an error, and no event
      says so. */
  lemma PaddedArchive()
    ensures var made := T.Run([T.Create("t", W.JsonDoc(W.TaskBriefJson, ""), "")]);
            && "t" in made.store.active
            && var gone := T.Step(made, T.Archive("t "));
            && "t" !in gone.store.active && gone.ledger == made.ledger
            && T.Answer(made, T.Archive("t ")) == Err(Invalid) && !TR.Replayed(gone)
  {
    hide TR.Replayed, TR.StoreOk, IsIdentifier, Trim;
    var op := T.Create("t", W.JsonDoc(W.TaskBriefJson, ""), "");
    TIsIdentifier();
    assert [op][..0] == [];
    assert T.Run([op]) == T.Step(T.EMPTY_WORLD, op);
    TR.RunOk([op]);
    assert !EndsInSpace("t") && EndsInSpace("t ");
    TR.RunReplays([op]);
    var made := T.Run([op]);
    assert A.Conforms(W.TaskBriefJson, W.JsonDoc(W.TaskBriefJson, ""));
    assert "t" in made.store.active && "t" !in made.store.archived;
    TR.StepReplaysExactly(made, T.Archive("t "));
    LedgerFileExact("t ");
  }

  lemma TIsIdentifier()
    ensures Validate("t") == Some("t") && Validate("t ") == Some("t")
  {
    IdentifierIsTrimmed("t");
    assert "t " == [] + "t" + " ";
    TrimIs("t ", [], "t", " ");
  }

  /** Letters are letters, and neither a hyphen nor a quote is. */
  predicate Ascii(u: F.Unicode) {
    && (forall c :: c in "NEAR" ==> u.isAlnum(c)) && !u.isAlnum('-') && !u.isAlnum(F.QUOTE)
    && u.upper("near\"") == "NEAR\"" && u.upper("near-field") == "NEAR-FIELD"
  }

  /** FtsQuery.PrintLexesBackExactly: the one-token query near" is printed raw and cannot be lexed. */
  lemma QuotedOperator(u: F.Unicode)
    requires Ascii(u)
    ensures F.Print(u, "near\"") == "NEAR\"" && F.Lex(u, "NEAR\"") == None
  {
    hide F.Print, F.Lex;
    PrintsAlone(u, "near\"", "NEAR\"");
    assert "NEAR" + "\"" == "NEAR\"";
    NearThenOther(u, "\"");
  }

  /** Nor can near-field, which contains no quote. */
  lemma HyphenatedOperator(u: F.Unicode)
    requires Ascii(u)
    ensures F.Print(u, "near-field") == "NEAR-FIELD" && F.Lex(u, "NEAR-FIELD") == None
  {
    hide F.Print, F.Lex;
    PrintsAlone(u, "near-field", "NEAR-FIELD");
    assert "NEAR" + "-FIELD" == "NEAR-FIELD";
    NearThenOther(u, "-FIELD");
  }

  lemma PrintsAlone(u: F.Unicode, token: string, shown: string)
    requires token != [] && NoSpace(token) && u.upper(token) == shown && "NEAR" <= shown
    requires !F.IsWholePhrase(token)
    ensures F.Print(u, token) == shown
  {
    hide Trim;
    TrimFixed(token);
    assert token == [] + token + [];
    F.SplitTakesWord([], token, []);
    assert F.Split(token) == [token];
    assert F.PrintAll(u, [token]) == [shown];
  }

  lemma NearThenOther(u: F.Unicode, rest: string)
    requires (forall c :: c in "NEAR" ==> u.isAlnum(c)) && rest != []
    requires !F.BareChar(u, rest[0]) && !IsSpace(rest[0]) && (rest[0] == F.QUOTE ==> rest == [F.QUOTE])
    ensures F.Lex(u, "NEAR" + rest) == None
  {
    var s := "NEAR" + rest;
    F.BareLengthIs(u, "NEAR", rest);
    assert s[4..] == rest && s[0] == 'N';
    assert F.Lex(u, rest) == None by {
      if rest[0] == F.QUOTE { assert rest[1..] == []; }
    }
  }
}
