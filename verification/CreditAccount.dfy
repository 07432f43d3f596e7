/** The durable object behind a credit account, handler by handler
    (cloudflare-workers/shared/credit_account.ts). */
module CreditAccount {
  import opened CreditLedger

  /** The fields of the account the handlers work on. */
  class State {
    var plan: Plan
    var balance: int
    var spent: int
    var status: Status
    var ids: seq<string>

    constructor (a: Account)
      ensures Value() == a
    {
      plan, balance, spent, status, ids := a.plan, a.balance, a.spent, a.status, a.ids;
    }

    function Value(): Account
      reads this
    {
      Account(plan, balance, spent, status, ids)
    }

    method RecordEvent(id: string)
      modifies this`ids
      ensures ids == Record(old(ids), id)
    {
      ids := ids + [id];
      if |ids| > MAX_IDS {
        ids := ids[|ids| - MAX_IDS..];
      }
    }
  }

  class Object {
    var storage: Option<Account>
    var row: Option<Row>
    var sent: seq<Signal>

    constructor (r: Option<Row>)
      ensures Value() == World(None, r, [])
    {
      storage, row, sent := None, r, [];
    }

    function Value(): World
      reads this
    {
      World(storage, row, sent)
    }

    method Persist(s: State)
      modifies this`storage
      ensures storage == Some(s.Value())
    {
      storage := Some(s.Value());
    }

    /** Loads the account, or seeds it from the plan in the row and stores it at once. */
    method LoadOrInit(readOk: bool) returns (s: State?)
      modifies this`storage
      ensures s == null <==> Loaded(old(Value()), readOk).None?
      ensures s == null ==> storage == old(storage)
      ensures s != null ==> fresh(s) && Loaded(old(Value()), readOk) == Some(s.Value()) && storage == Some(s.Value())
    {
      if storage.Some? {
        s := new State(storage.value);
        return;
      }
      if !readOk { return null; }
      var plan := if row.Some? && row.value.plan == Pro then Pro else Free;
      s := new State(Account(plan, if plan == Pro then -1 else SEED_CENTS, 0, Active, []));
      Persist(s);
    }

    method MarkHalted(halted: bool, writeOk: bool)
      modifies this`row
      ensures row == MirrorHalted(old(row), halted, writeOk)
    {
      if writeOk && row.Some? {
        row := Some(row.value.(halted := halted));
      }
    }

    method Check(readOk: bool) returns (resp: Response)
      modifies this
      ensures (Value(), resp) == Handle(old(Value()), Request.Check(readOk))
    {
      var s := LoadOrInit(readOk);
      if s == null { return Failed; }
      resp := Checked(s.plan == Pro || s.balance > 0, s.balance);
    }

    method Debit(id: string, amountCents: int, readOk: bool, writeOk: bool) returns (resp: Response)
      modifies this
      ensures (Value(), resp) == Handle(old(Value()), Request.Debit(id, amountCents, readOk, writeOk))
    {
      var amount := Max(0, amountCents);
      if id == "" { return BadRequest; }
      if amount == 0 { return Ignored; }
      var s := LoadOrInit(readOk);
      if s == null { return Failed; }
      if s.plan == Pro {
        s.RecordEvent(id);
        Persist(s);
        return Debited(false, -1, false);
      }
      if id in s.ids {
        return Debited(true, s.balance, false);
      }
      resp := DebitFree(s, id, amount, writeOk);
    }

    /** The rest of a debit: a new event on the free plan. */
    method DebitFree(s: State, id: string, amount: int, writeOk: bool) returns (resp: Response)
      requires amount > 0 && s.plan == Free && id !in s.ids
      modifies this, s
      ensures (Value(), resp) == DoDebit(old(Value()), old(s.Value()), id, amount, writeOk)
    {
      var prev := s.balance;
      s.balance := Max(0, prev - amount);
      s.spent := s.spent + (prev - s.balance);
      s.RecordEvent(id);
      var dispatched := false;
      if s.balance == 0 && s.status == Active {
        s.status := Halted;
        Persist(s);
        MarkHalted(true, writeOk);
        sent := sent + [Halt];
        dispatched := true;
      } else {
        Persist(s);
      }
      resp := Debited(false, s.balance, dispatched);
    }

    method Credit(amountCents: int, readOk: bool, writeOk: bool) returns (resp: Response)
      modifies this
      ensures (Value(), resp) == Handle(old(Value()), Request.Credit(amountCents, readOk, writeOk))
    {
      var amount := Max(0, amountCents);
      if amount == 0 { return BadRequest; }
      var s := LoadOrInit(readOk);
      if s == null { return Failed; }
      if s.plan == Pro { return Credited(-1, false); }
      var wasHalted := s.status == Halted;
      s.balance := (if s.balance < 0 then 0 else s.balance) + amount;
      if wasHalted && s.balance > 0 {
        s.status := Active;
      }
      Persist(s);
      var dispatched := false;
      if wasHalted && s.balance > 0 {
        MarkHalted(false, writeOk);
        sent := sent + [Resume];
        dispatched := true;
      }
      resp := Credited(s.balance, dispatched);
    }

    method MarkPro(readOk: bool, writeOk: bool) returns (resp: Response)
      modifies this
      ensures (Value(), resp) == Handle(old(Value()), Request.MarkPro(readOk, writeOk))
    {
      var s := LoadOrInit(readOk);
      if s == null { return Failed; }
      var wasHalted := s.status == Halted;
      s.plan, s.balance, s.status := Pro, -1, Active;
      Persist(s);
      if !writeOk { return Failed; }
      if row.Some? {
        row := Some(Row(Pro, false));
      }
      if wasHalted {
        sent := sent + [Resume];
      }
      resp := Marked(Pro, wasHalted);
    }

    method MarkFree(readOk: bool, writeOk: bool) returns (resp: Response)
      modifies this
      ensures (Value(), resp) == Handle(old(Value()), Request.MarkFree(readOk, writeOk))
    {
      var s := LoadOrInit(readOk);
      if s == null { return Failed; }
      s.plan := Free;
      if s.balance < 0 {
        s.balance := 0;
      }
      Persist(s);
      if !writeOk { return Failed; }
      if row.Some? {
        row := Some(row.value.(plan := Free));
      }
      resp := Marked(Free, false);
    }
  }
}
