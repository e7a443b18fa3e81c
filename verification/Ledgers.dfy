/** The contributions ledger always equals a recount of the countable rows. */
module Ledgers {
  import opened Collections
  import opened Rows
  import opened Evidence

  predicate Exact(ledger: Ledger, runs: seq<RunRow>, key: (string, string)) {
    TallyOf(ledger, key) == Recount(runs, key)
  }

  ghost predicate LedgerExact(ledger: Ledger, runs: seq<RunRow>) {
    forall key {:trigger Exact(ledger, runs, key)} :: Exact(ledger, runs, key)
  }

  lemma {:induction false} CountMapped<T>(s: seq<T>, f: T -> T, p: T -> bool, q: T -> bool)
    requires forall x :: x in s ==> (p(f(x)) <==> q(x))
    ensures CountIf(Map(s, f), p) == CountIf(s, q)
  {
    if s != [] {
      assert s == [s[0]] + s[1..];
      CountMapped(s[1..], f, p, q);
      assert Map(s, f)[1..] == Map(s[1..], f);
    }
  }

  /** Raising flags counts nothing differently. */
  lemma FlagKeepsRecount(runs: seq<RunRow>, protocol: string, digest: string, key: (string, string))
    ensures Recount(FlagRows(runs, protocol, digest), key) == Recount(runs, key)
  {
    var f := (row: RunRow) => FlagRow(row, protocol, digest);
    CountMapped(runs, f, (row: RunRow) => Counts(row, key, true), (row: RunRow) => Counts(row, key, true));
    CountMapped(runs, f, (row: RunRow) => Counts(row, key, false), (row: RunRow) => Counts(row, key, false));
  }

  lemma RecountAppend(runs: seq<RunRow>, row: RunRow, key: (string, string))
    ensures Recount(runs + [row], key) ==
            Tally(Recount(runs, key).accepted + (if Counts(row, key, true) then 1 else 0),
                  Recount(runs, key).withdrawn + (if Counts(row, key, false) then 1 else 0))
  {
    FilterAppend(runs, [row], (r: RunRow) => Counts(r, key, true));
    FilterAppend(runs, [row], (r: RunRow) => Counts(r, key, false));
  }

  lemma StoredExact(dedupe: bool, e: Tables, s: Submission, receipt: Id, now: int)
    requires LedgerExact(e.ledger, e.runs)
    ensures var after := Stored(dedupe, e, s, receipt, now); LedgerExact(after.ledger, after.runs)
  {
    var after := Stored(dedupe, e, s, receipt, now);
    var row := after.runs[|after.runs| - 1];
    var rows := after.runs[..|after.runs| - 1];
    forall key {:trigger Exact(after.ledger, after.runs, key)} ensures Exact(after.ledger, after.runs, key) {
      assert Exact(e.ledger, e.runs, key);
      FlagKeepsRecount(e.runs, s.protocol, s.digest, key);
      RecountAppend(rows, row, key);
      assert after.runs == rows + [row];
    }
  }

  // ---------------------------------------------------------------------------
  // Withdrawal

  /** Marking moves exactly the countable live rows it hits from one count to the other. */
  lemma {:induction false} MarkMovesCounts(runs: seq<RunRow>, org: string, ids: set<Id>, revision: nat,
                                           key: (string, string))
    ensures var n := if key.1 == org then Moved(runs, org, ids, key.0) else 0;
            && Recount(runs, key).accepted >= n
            && Recount(MarkRows(runs, org, ids, revision), key) ==
               Tally(Recount(runs, key).accepted - n, Recount(runs, key).withdrawn + n)
  {
    if runs != [] {
      MarkMovesCounts(runs[1..], org, ids, revision, key);
      assert MarkRows(runs, org, ids, revision)[1..] == MarkRows(runs[1..], org, ids, revision);
    }
  }

  /** The `greatest(..., 0)` clamp never bites, and the update misses no organization's row. */
  lemma ClampNeverBites(e: Tables, org: string, ids: set<Id>, protocol: string)
    requires LedgerExact(e.ledger, e.runs)
    ensures TallyOf(e.ledger, (protocol, org)).accepted >= Moved(e.runs, org, ids, protocol)
    ensures Moved(e.runs, org, ids, protocol) > 0 ==> (protocol, org) in e.ledger
  {
    assert Exact(e.ledger, e.runs, (protocol, org));
    MarkMovesCounts(e.runs, org, ids, 0, (protocol, org));
  }

  lemma WithdrawingExact(e: Tables, org: string, ids: set<Id>, id: Id)
    requires LedgerExact(e.ledger, e.runs)
    ensures var after := Withdrawing(e, org, ids, id); LedgerExact(after.ledger, after.runs)
  {
    var after := Withdrawing(e, org, ids, id);
    forall key {:trigger Exact(after.ledger, after.runs, key)} ensures Exact(after.ledger, after.runs, key) {
      assert Exact(e.ledger, e.runs, key);
      MarkMovesCounts(e.runs, org, ids, e.revision + 1, key);
      if key.1 == org {
        ClampNeverBites(e, org, ids, key.0);
        assert key == (key.0, org);
      }
    }
  }

  // ---------------------------------------------------------------------------
  // Repair

  lemma NothingToCount(runs: seq<RunRow>, key: (string, string))
    requires key !in CountedKeys(runs)
    ensures Recount(runs, key) == Tally(0, 0)
  {
    FilterMembers(runs, (row: RunRow) => Counts(row, key, true));
    FilterMembers(runs, (row: RunRow) => Counts(row, key, false));
    forall row, live | row in runs ensures !Counts(row, key, live) {
      assert Countable(row) ==> (row.protocol, row.org) in CountedKeys(runs);
    }
    NoMember(Filter(runs, (row: RunRow) => Counts(row, key, true)));
    NoMember(Filter(runs, (row: RunRow) => Counts(row, key, false)));
  }

  lemma NoMember<T>(s: seq<T>)
    ensures s == [] || s[0] in s
  {
  }

  /** From any ledger, however corrupted, a repair restores the recount. */
  lemma RepairRestores(ledger: Ledger, runs: seq<RunRow>)
    ensures LedgerExact(Repaired(ledger, runs), runs)
  {
    var repaired := Repaired(ledger, runs);
    forall key {:trigger Exact(repaired, runs, key)} ensures Exact(repaired, runs, key) {
      if key !in CountedKeys(runs) {
        NothingToCount(runs, key);
      }
    }
  }

  /** Where the ledger is exact a repair changes no count. */
  lemma RepairIsNoChange(ledger: Ledger, runs: seq<RunRow>, key: (string, string))
    requires LedgerExact(ledger, runs)
    ensures TallyOf(Repaired(ledger, runs), key) == TallyOf(ledger, key)
  {
    RepairRestores(ledger, runs);
    assert Exact(ledger, runs, key) && Exact(Repaired(ledger, runs), runs, key);
  }
}
