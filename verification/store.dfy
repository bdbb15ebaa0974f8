/** `AnnuityStatement.save` and `_create_transactions`: saving a statement (re)generates the
    transactions it implies, first deleting the ones an earlier save of it generated. */
module Store {
  import opened Wrappers
  import opened Transactions
  import opened Ledger

  /** The transactions `_create_transactions` creates for a saved statement, in creation order:
      a premium when premiums > 0, a withdrawal when withdrawals > 0, a tax withholding when
      tax withholding > 0 and a net change when it is non-zero; each carries the field's
      amount, the statement's date at midnight and the statement as its source. */
  function Derived(s: AnnuityStatement): (ts: seq<Transaction>)
    requires s.pk.Some?
    ensures |ts| <= 4
  {
    Part(s, Premium, s.premiums, s.premiums > 0) + Part(s, Withdrawal, s.withdrawals, s.withdrawals > 0)
    + Part(s, TaxWithholding, s.taxWithholding, s.taxWithholding > 0) + Part(s, NetChange, s.netChange, s.netChange != 0)
  }

  /** The transaction of one type `_create_transactions` creates for a statement when `created`. */
  function Part(s: AnnuityStatement, kind: TransactionType, amount: int, created: bool): (ts: seq<Transaction>)
    ensures |ts| == if created then 1 else 0
    ensures created ==> ts[0] == Transaction(s.investment, kind, Some(amount), None, None, 0, s.date * SecondsPerDay, s.pk)
  {
    if created then [Transaction(s.investment, kind, Some(amount), None, None, 0, s.date * SecondsPerDay, s.pk)] else []
  }

  /** Every generated transaction belongs to the statement's investment and the statement, at its
      date's midnight, with an amount and no fee; there is one of each of the four types exactly
      when its field calls for it, no more than one (the count is the number of fields that call
      for one), and no other type. */
  lemma DerivedShape(s: AnnuityStatement)
    requires s.pk.Some?
    ensures forall t :: t in Derived(s) ==>
      (t.source == s.pk && t.investment == s.investment && t.time == s.date * SecondsPerDay && t.fee == 0 && t.amount.Some?)
    ensures (exists t :: t in Derived(s) && t.kind == Premium) <==> s.premiums > 0
    ensures (exists t :: t in Derived(s) && t.kind == Withdrawal) <==> s.withdrawals > 0
    ensures (exists t :: t in Derived(s) && t.kind == TaxWithholding) <==> s.taxWithholding > 0
    ensures (exists t :: t in Derived(s) && t.kind == NetChange) <==> s.netChange != 0
    ensures forall t :: t in Derived(s) ==> t.kind in {Premium, Withdrawal, TaxWithholding, NetChange}
    ensures |Derived(s)| == (if s.premiums > 0 then 1 else 0) + (if s.withdrawals > 0 then 1 else 0)
      + (if s.taxWithholding > 0 then 1 else 0) + (if s.netChange != 0 then 1 else 0)
  {
    var p := Part(s, Premium, s.premiums, s.premiums > 0);
    var w := Part(s, Withdrawal, s.withdrawals, s.withdrawals > 0);
    var x := Part(s, TaxWithholding, s.taxWithholding, s.taxWithholding > 0);
    var n := Part(s, NetChange, s.netChange, s.netChange != 0);
    assert Derived(s) == p + w + x + n;
    forall t | t in Derived(s)
      ensures t in p || t in w || t in x || t in n
    {
    }
  }

  /** Generated rows keep every source a stored statement, as long as the statement is stored. */
  lemma StoredSources(rows: seq<Transaction>, s: AnnuityStatement, statements: map<nat, AnnuityStatement>)
    requires s.pk.Some? && s.pk.value in statements
    requires forall t :: t in rows && t.source.Some? ==> t.source.value in statements
    ensures forall t :: t in rows + Derived(s) && t.source.Some? ==> t.source.value in statements
  {
    DerivedShape(s);
  }

  /** Each generated transaction's amount is its statement field. */
  lemma DerivedAmounts(s: AnnuityStatement, t: Transaction)
    requires s.pk.Some? && t in Derived(s)
    ensures t.kind == Premium ==> t.amount == Some(s.premiums)
    ensures t.kind == Withdrawal ==> t.amount == Some(s.withdrawals)
    ensures t.kind == TaxWithholding ==> t.amount == Some(s.taxWithholding)
    ensures t.kind == NetChange ==> t.amount == Some(s.netChange)
  {
    assert Derived(s) == Part(s, Premium, s.premiums, s.premiums > 0) + Part(s, Withdrawal, s.withdrawals, s.withdrawals > 0)
      + Part(s, TaxWithholding, s.taxWithholding, s.taxWithholding > 0) + Part(s, NetChange, s.netChange, s.netChange != 0);
  }

  /** The generated transactions move the value exactly by the statement's activity, so their
      running total takes the beginning value to `calculated_change`. */
  lemma DerivedTotal(s: AnnuityStatement)
    requires s.pk.Some? && s.premiums >= 0 && s.withdrawals >= 0 && s.taxWithholding >= 0
    ensures Total(Derived(s)) == s.premiums + s.netChange - s.withdrawals - s.taxWithholding
    ensures CalculatedChange(s).Some? ==> CalculatedChange(s).value == s.beginning.value + Total(Derived(s))
  {
    var p := Part(s, Premium, s.premiums, s.premiums > 0);
    var w := Part(s, Withdrawal, s.withdrawals, s.withdrawals > 0);
    var x := Part(s, TaxWithholding, s.taxWithholding, s.taxWithholding > 0);
    var n := Part(s, NetChange, s.netChange, s.netChange != 0);
    assert Derived(s) == p + w + x + n;
    PartTotal(s, Premium, s.premiums, s.premiums > 0);
    PartTotal(s, Withdrawal, s.withdrawals, s.withdrawals > 0);
    PartTotal(s, TaxWithholding, s.taxWithholding, s.taxWithholding > 0);
    PartTotal(s, NetChange, s.netChange, s.netChange != 0);
    TotalAppend(p, w);
    TotalAppend(p + w, x);
    TotalAppend(p + w + x, n);
    assert Total(Derived(s)) == Total(p) + Total(w) + Total(x) + Total(n);
  }

  /** A part adds its amount for a premium or net change and subtracts it for a withdrawal or tax
      withholding; a part that was not created adds nothing. */
  lemma PartTotal(s: AnnuityStatement, kind: TransactionType, amount: int, created: bool)
    ensures !created ==> Total(Part(s, kind, amount, created)) == 0
    ensures created && (kind == Premium || kind == NetChange) ==> Total(Part(s, kind, amount, created)) == amount
    ensures created && (kind == Withdrawal || kind == TaxWithholding) ==> Total(Part(s, kind, amount, created)) == -amount
  {
    var ts := Part(s, kind, amount, created);
    if created {
      assert ts[..0] == [];
      assert Total(ts) == Signed(ts[0]);
    }
  }

  /** A statement with 500.00 of premiums, no withdrawals or tax, and a net change of -20.00
      generates exactly a premium and a net change. */
  lemma DerivedExample(s: AnnuityStatement)
    requires s.pk.Some? && s.premiums == 50000 && s.withdrawals == 0 && s.taxWithholding == 0 && s.netChange == -2000
    ensures |Derived(s)| == 2
    ensures Derived(s)[0].kind == Premium && Derived(s)[0].amount == Some(50000)
    ensures Derived(s)[1].kind == NetChange && Derived(s)[1].amount == Some(-2000)
  {
  }

  /** The rows that `generated_transactions.all().delete()` leaves: those whose source is not
      the statement `id`, in their order. */
  function WithoutSource(rows: seq<Transaction>, id: nat): (r: seq<Transaction>)
    ensures |r| <= |rows|
    ensures forall t :: t in r <==> t in rows && t.source != Some(id)
  {
    if rows == [] then []
    else
      var rest := WithoutSource(rows[..|rows| - 1], id);
      var last := rows[|rows| - 1];
      assert forall t :: t in rows <==> t in rows[..|rows| - 1] || t == last;
      if last.source == Some(id) then rest else rest + [last]
  }

  lemma {:induction false} WithoutSourceAppend(a: seq<Transaction>, b: seq<Transaction>, id: nat)
    ensures WithoutSource(a + b, id) == WithoutSource(a, id) + WithoutSource(b, id)
  {
    if b == [] {
      assert a + b == a;
    } else {
      assert (a + b)[..|a + b| - 1] == a + b[..|b| - 1];
      WithoutSourceAppend(a, b[..|b| - 1], id);
    }
  }

  lemma {:induction false} WithoutSourceNone(rows: seq<Transaction>, id: nat)
    requires forall t :: t in rows ==> t.source != Some(id)
    ensures WithoutSource(rows, id) == rows
  {
    if rows != [] {
      var init, last := rows[..|rows| - 1], rows[|rows| - 1];
      assert rows == init + [last];
      assert last in rows;
      forall t | t in init ensures t.source != Some(id) {
        assert t in rows;
      }
      WithoutSourceNone(init, id);
    }
  }

  lemma {:induction false} WithoutSourceAll(rows: seq<Transaction>, id: nat)
    requires forall t :: t in rows ==> t.source == Some(id)
    ensures WithoutSource(rows, id) == []
  {
    if rows != [] {
      var init := rows[..|rows| - 1];
      assert rows[|rows| - 1] in rows;
      forall t | t in init ensures t.source == Some(id) {
        assert t in rows;
      }
      WithoutSourceAll(init, id);
    }
  }

  /** The transaction rows after saving the statement s (with its primary key assigned). */
  function AfterSave(rows: seq<Transaction>, s: AnnuityStatement): seq<Transaction>
    requires s.pk.Some?
  {
    WithoutSource(rows, s.pk.value) + Derived(s)
  }

  /** Saving a statement twice leaves the same rows as saving it once: no duplicates. */
  lemma SaveIdempotent(rows: seq<Transaction>, s: AnnuityStatement)
    requires s.pk.Some?
    ensures AfterSave(AfterSave(rows, s), s) == AfterSave(rows, s)
  {
    var id := s.pk.value;
    var kept := WithoutSource(rows, id);
    var own := Derived(s);
    DerivedShape(s);
    assert AfterSave(rows, s) == kept + own;
    WithoutSourceAppend(kept, own, id);
    WithoutSourceNone(kept, id);
    WithoutSourceAll(own, id);
    assert WithoutSource(kept + own, id) == kept;
  }

  /** After a save, the rows from other sources are exactly those before, in the same order,
      and the statement's own rows are exactly what it generates. */
  lemma SaveKeepsOthers(rows: seq<Transaction>, s: AnnuityStatement, other: Option<nat>)
    requires s.pk.Some? && other != s.pk
    ensures forall t :: t in AfterSave(rows, s) && t.source == other <==> t in rows && t.source == other
    ensures forall t :: t in AfterSave(rows, s) && t.source == s.pk <==> t in Derived(s)
  {
    DerivedShape(s);
  }

  /** The statement table and the transaction table. */
  class Database {
    var statements: map<nat, AnnuityStatement>
    var transactions: seq<Transaction>
    var nextId: nat

    /** Keys are below the next fresh key, each stored statement knows its key, and every
        generated transaction's source is a stored statement. */
    predicate Valid()
      reads this
    {
      && (forall k :: k in statements ==> k < nextId && statements[k].pk == Some(k))
      && (forall t :: t in transactions && t.source.Some? ==> t.source.value in statements)
    }

    constructor()
      ensures Valid() && statements == map[] && transactions == []
    {
      statements := map[];
      transactions := [];
      nextId := 0;
    }

    /** `_create_transactions`, for a statement already stored. */
    method CreateTransactions(s: AnnuityStatement)
      requires Valid() && s.pk.Some? && s.pk.value in statements
      modifies this
      ensures Valid()
      ensures transactions == old(transactions) + Derived(s)
      ensures statements == old(statements) && nextId == old(nextId)
    {
      var date := s.date * SecondsPerDay;
      if s.premiums > 0 {
        transactions := transactions + [Transaction(s.investment, Premium, Some(s.premiums), None, None, 0, date, s.pk)];
      }
      if s.withdrawals > 0 {
        transactions := transactions + [Transaction(s.investment, Withdrawal, Some(s.withdrawals), None, None, 0, date, s.pk)];
      }
      if s.taxWithholding > 0 {
        transactions := transactions + [Transaction(s.investment, TaxWithholding, Some(s.taxWithholding), None, None, 0, date, s.pk)];
      }
      if s.netChange != 0 {
        transactions := transactions + [Transaction(s.investment, NetChange, Some(s.netChange), None, None, 0, date, s.pk)];
      }
      StoredSources(old(transactions), s, statements);
    }

    /** `save`: store the statement (a new one gets a fresh key), delete what an earlier save
        of it generated when it is not new, and generate its transactions. */
    method Save(s: AnnuityStatement) returns (saved: AnnuityStatement)
      requires Valid()
      modifies this
      ensures Valid()
      ensures s.pk.Some? ==> saved == s
      ensures s.pk.None? ==> saved == s.(pk := Some(old(nextId))) && old(nextId) !in old(statements)
      ensures statements == old(statements)[saved.pk.value := saved]
      ensures transactions == AfterSave(old(transactions), saved)
    {
      var isNew := s.pk.None?;
      var id: nat;
      if isNew {
        id := nextId;
      } else {
        id := s.pk.value;
      }
      saved := s.(pk := Some(id));
      statements := statements[id := saved];
      if id >= nextId {
        nextId := id + 1;
      }
      if !isNew {
        transactions := WithoutSource(transactions, id);
      } else {
        WithoutSourceNone(transactions, id);
      }
      CreateTransactions(saved);
    }
  }
}
