// The stored cursors and dead letters, and how one polled batch is processed.
module Ingestion {
  import opened Basics
  import opened Transactions
  import opened TxHistory
  import opened Sources

  // ---------- Repositories and one batch ----------

  datatype DeadLetter = DeadLetter(source: string, rawPayload: string, error: string)

  class IngestionRepository {
    var cursors: map<string, string>
    var deadLetters: seq<DeadLetter>

    constructor ()
      ensures cursors == map[] && deadLetters == []
    {
      cursors, deadLetters := map[], [];
    }

    method GetCursor(source: string) returns (c: Option<string>)
      ensures c == if source in cursors then Some(cursors[source]) else None
    {
      c := if source in cursors then Some(cursors[source]) else None;
    }

    method SetCursor(source: string, cursor: string, fails: bool) returns (ok: bool)
      modifies this`cursors
      ensures ok <==> !fails
      ensures cursors == if ok then old(cursors)[source := cursor] else old(cursors)
    {
      if fails { return false; }
      cursors := cursors[source := cursor];
      ok := true;
    }

    method AddDeadLetter(letter: DeadLetter, fails: bool) returns (ok: bool)
      modifies this`deadLetters
      ensures ok <==> !fails
      ensures deadLetters == if ok then old(deadLetters) + [letter] else old(deadLetters)
    {
      if fails { return false; }
      deadLetters := deadLetters + [letter];
      ok := true;
    }
  }

  /** How handling one transaction goes: whether the save fails, whether anything after it fails, with
      which error, and whether writing the dead letter then fails too. */
  datatype Attempt = Attempt(saveFails: bool, restFails: bool, error: string, letterFails: bool)

  /** Rows after saving the transactions whose save succeeds. */
  function SavedRows(rows: Rows, txs: seq<Transaction>, attempts: seq<Attempt>): Rows
    requires |txs| == |attempts|
  {
    if txs == [] then rows
    else
      var n := |txs| - 1;
      var before := SavedRows(rows, txs[..n], attempts[..n]);
      if attempts[n].saveFails then before else SaveRow(before, txs[n])
  }

  /** One letter, in order, for each transaction that failed somewhere and whose letter could be written. */
  function LettersFor(source: string, render: Transaction -> string, txs: seq<Transaction>,
                      attempts: seq<Attempt>): seq<DeadLetter>
    requires |txs| == |attempts|
  {
    if txs == [] then []
    else
      var n := |txs| - 1;
      var a := attempts[n];
      LettersFor(source, render, txs[..n], attempts[..n])
        + if (a.saveFails || a.restFails) && !a.letterFails then [DeadLetter(source, render(txs[n]), a.error)] else []
  }

  function FailureLetters(source: string, failures: seq<FetchFailure>, letterFails: seq<bool>): seq<DeadLetter>
    requires |failures| == |letterFails|
  {
    if failures == [] then []
    else
      var n := |failures| - 1;
      FailureLetters(source, failures[..n], letterFails[..n])
        + if letterFails[n] then [] else [DeadLetter(source, failures[n].rawId, failures[n].error)]
  }

  lemma BatchStart(rows: Rows, source: string, render: Transaction -> string)
    ensures SavedRows(rows, [], []) == rows && LettersFor(source, render, [], []) == []
    ensures FailureLetters(source, [], []) == []
  {
  }

  lemma BatchStep(rows: Rows, source: string, render: Transaction -> string, txs: seq<Transaction>,
                  attempts: seq<Attempt>, i: nat)
    requires |txs| == |attempts| && i < |txs|
    ensures SavedRows(rows, txs[..i + 1], attempts[..i + 1])
      == if attempts[i].saveFails then SavedRows(rows, txs[..i], attempts[..i])
          else SaveRow(SavedRows(rows, txs[..i], attempts[..i]), txs[i])
    ensures LettersFor(source, render, txs[..i + 1], attempts[..i + 1])
      == LettersFor(source, render, txs[..i], attempts[..i])
      + if (attempts[i].saveFails || attempts[i].restFails) && !attempts[i].letterFails
        then [DeadLetter(source, render(txs[i]), attempts[i].error)] else []
  {
    hide SaveRow;
    assert txs[..i + 1][..i] == txs[..i] && attempts[..i + 1][..i] == attempts[..i];
  }

  lemma FailureStep(source: string, failures: seq<FetchFailure>, letterFails: seq<bool>, i: nat)
    requires |failures| == |letterFails| && i < |failures|
    ensures FailureLetters(source, failures[..i + 1], letterFails[..i + 1])
      == FailureLetters(source, failures[..i], letterFails[..i])
      + if letterFails[i] then [] else [DeadLetter(source, failures[i].rawId, failures[i].error)]
  {
    assert failures[..i + 1][..i] == failures[..i] && letterFails[..i + 1][..i] == letterFails[..i];
  }

  /** Transactions first, then the fetch failures; no failure stops the batch. */
  method ProcessBatch(repo: TransactionRepository, ingestion: IngestionRepository, source: string,
                      render: Transaction -> string, txs: seq<Transaction>, attempts: seq<Attempt>,
                      failures: seq<FetchFailure>, letterFails: seq<bool>)
    requires |txs| == |attempts| && |failures| == |letterFails|
    modifies repo, ingestion`deadLetters
    ensures repo.rows == SavedRows(old(repo.rows), txs, attempts)
    ensures ingestion.deadLetters == old(ingestion.deadLetters)
      + LettersFor(source, render, txs, attempts) + FailureLetters(source, failures, letterFails)
  {
    hide SavedRows, LettersFor, FailureLetters, SaveRow;
    BatchStart(old(repo.rows), source, render);
    for i := 0 to |txs|
      invariant repo.rows == SavedRows(old(repo.rows), txs[..i], attempts[..i])
      invariant ingestion.deadLetters == old(ingestion.deadLetters)
        + LettersFor(source, render, txs[..i], attempts[..i])
    {
      var a := attempts[i];
      BatchStep(old(repo.rows), source, render, txs, attempts, i);
      var ok := repo.Save(txs[i], a.saveFails);
      if !ok || a.restFails {
        var _ := ingestion.AddDeadLetter(DeadLetter(source, render(txs[i]), a.error), a.letterFails);
      }
    }
    assert txs[..|txs|] == txs && attempts[..|txs|] == attempts;
    ghost var before := ingestion.deadLetters;
    for i := 0 to |failures|
      invariant repo.rows == SavedRows(old(repo.rows), txs, attempts)
      invariant ingestion.deadLetters == before + FailureLetters(source, failures[..i], letterFails[..i])
    {
      FailureStep(source, failures, letterFails, i);
      var _ := ingestion.AddDeadLetter(DeadLetter(source, failures[i].rawId, failures[i].error), letterFails[i]);
    }
    assert failures[..|failures|] == failures && letterFails[..|failures|] == letterFails;
  }

  // ---------- One round of the loop ----------

  /** What the loop does with the answer to one poll: nothing after an error; otherwise it processes the batch,
      then stores the batch's cursor and goes on from it, whether or not it could be stored. `cursor` is where
      it was, `next` where it goes on. */
  method RunRound(repo: TransactionRepository, ingestion: IngestionRepository, source: string,
                  render: Transaction -> string, polled: PollResult, cursor: Option<string>, attempts: seq<Attempt>,
                  letterFails: seq<bool>, cursorFails: bool)
    returns (next: Option<string>)
    requires polled.Fetched? ==> |polled.transactions| == |attempts| && |polled.failures| == |letterFails|
    modifies repo, ingestion
    ensures !polled.Fetched? ==>
      repo.rows == old(repo.rows) && ingestion.deadLetters == old(ingestion.deadLetters)
      && ingestion.cursors == old(ingestion.cursors) && next == cursor
    ensures polled.Fetched? ==>
      && repo.rows == SavedRows(old(repo.rows), polled.transactions, attempts)
      && ingestion.deadLetters == old(ingestion.deadLetters)
           + LettersFor(source, render, polled.transactions, attempts)
           + FailureLetters(source, polled.failures, letterFails)
      && next == (if polled.nextCursor.Some? then polled.nextCursor else cursor)
      && ingestion.cursors ==
           if polled.nextCursor.Some? && !cursorFails then old(ingestion.cursors)[source := polled.nextCursor.value]
           else old(ingestion.cursors)
  {
    next := cursor;
    match polled {
      case Fetched(transactions, failures, nextCursor) =>
        ProcessBatch(repo, ingestion, source, render, transactions, attempts, failures, letterFails);
        if nextCursor.Some? {
          var _ := ingestion.SetCursor(source, nextCursor.value, cursorFails);
          next := nextCursor;
        }
      case _ =>
    }
  }
}
