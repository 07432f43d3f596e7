/** The free-tier credit account of an organisation (cloudflare-workers/shared/credit_account.ts):
    what each request does to the stored account, to the organisation's row in D1 and to the
    halt and resume signals that are sent. */
module CreditLedger {

  datatype Option<T> = None | Some(value: T)

  const SEED_CENTS := 500
  const MAX_IDS := 1024

  datatype Plan = Free | Pro
  datatype Status = Active | Halted
  datatype Signal = Halt | Resume

  /** `balance` is -1 when it is not tracked. */
  datatype Account = Account(plan: Plan, balance: int, spent: int, status: Status, ids: seq<string>)
  datatype Row = Row(plan: Plan, halted: bool)

  /** `row` is the organisation's row in D1, if it has one; `sent` are the signals so far. */
  datatype World = World(account: Option<Account>, row: Option<Row>, sent: seq<Signal>)

  /** The flags say whether reading the row and writing it succeed. */
  datatype Request =
    | Check(readOk: bool)
    | Debit(id: string, amount: int, readOk: bool, writeOk: bool)
    | Credit(amount: int, readOk: bool, writeOk: bool)
    | MarkPro(readOk: bool, writeOk: bool)
    | MarkFree(readOk: bool, writeOk: bool)

  datatype Response =
    | BadRequest
    | Failed
    | Ignored
    | Checked(allowed: bool, balance: int)
    | Debited(deduped: bool, balance: int, signalled: bool)
    | Credited(balance: int, signalled: bool)
    | Marked(plan: Plan, signalled: bool)

  function Max(a: int, b: int): int {
    if a > b then a else b
  }

  // ----- The handlers -----

  function Seed(row: Option<Row>): Account {
    var plan := if row.Some? && row.value.plan == Pro then Pro else Free;
    Account(plan, if plan == Pro then -1 else SEED_CENTS, 0, Active, [])
  }

  /** The account, seeded and stored if there was none; `None` when the row cannot be read. */
  function Loaded(w: World, readOk: bool): Option<Account> {
    if w.account.Some? then w.account else if readOk then Some(Seed(w.row)) else None
  }

  function Record(ids: seq<string>, id: string): seq<string> {
    var all := ids + [id];
    if |all| > MAX_IDS then all[|all| - MAX_IDS..] else all
  }

  function MirrorHalted(row: Option<Row>, halted: bool, writeOk: bool): Option<Row> {
    if writeOk && row.Some? then Some(row.value.(halted := halted)) else row
  }

  function Charge(a: Account, id: string, amount: int): Account {
    var balance := Max(0, a.balance - amount);
    var status := if balance == 0 then Halted else a.status;
    Account(a.plan, balance, a.spent + a.balance - balance, status, Record(a.ids, id))
  }

  function DoDebit(w: World, a: Account, id: string, amount: int, writeOk: bool): (World, Response) {
    if a.plan == Pro then
      (w.(account := Some(a.(ids := Record(a.ids, id)))), Debited(false, -1, false))
    else if id in a.ids then (w.(account := Some(a)), Debited(true, a.balance, false))
    else
      var b := Charge(a, id, amount);
      if b.balance == 0 && a.status == Active then
        (World(Some(b), MirrorHalted(w.row, true, writeOk), w.sent + [Halt]), Debited(false, b.balance, true))
      else (w.(account := Some(b)), Debited(false, b.balance, false))
  }

  function DoCredit(w: World, a: Account, amount: int, writeOk: bool): (World, Response) {
    if a.plan == Pro then (w.(account := Some(a)), Credited(-1, false))
    else
      var balance := Max(0, a.balance) + amount;
      var wakes := a.status == Halted && balance > 0;
      var b := a.(balance := balance, status := if wakes then Active else a.status);
      if wakes then
        (World(Some(b), MirrorHalted(w.row, false, writeOk), w.sent + [Resume]), Credited(balance, true))
      else (w.(account := Some(b)), Credited(balance, false))
  }

  /** The account is stored before the row is written, and the signal goes out after. */
  function DoMarkPro(w: World, a: Account, writeOk: bool): (World, Response) {
    var b := a.(plan := Pro, balance := -1, status := Active);
    if !writeOk then (w.(account := Some(b)), Failed)
    else
      var row := if w.row.Some? then Some(Row(Pro, false)) else None;
      var wakes := a.status == Halted;
      (World(Some(b), row, if wakes then w.sent + [Resume] else w.sent), Marked(Pro, wakes))
  }

  function DoMarkFree(w: World, a: Account, writeOk: bool): (World, Response) {
    var b := a.(plan := Free, balance := Max(0, a.balance));
    if !writeOk then (w.(account := Some(b)), Failed)
    else
      var row := if w.row.Some? then Some(w.row.value.(plan := Free)) else None;
      (World(Some(b), row, w.sent), Marked(Free, false))
  }

  function Handle(w: World, r: Request): (World, Response) {
    if r.Debit? && r.id == "" then (w, BadRequest)
    else if r.Debit? && r.amount <= 0 then (w, Ignored)
    else if r.Credit? && r.amount <= 0 then (w, BadRequest)
    else
      match Loaded(w, r.readOk)
      case None => (w, Failed)
      case Some(a) =>
        match r
        case Check(_) => (w.(account := Some(a)), Checked(a.plan == Pro || a.balance > 0, a.balance))
        case Debit(id, amount, _, writeOk) => DoDebit(w, a, id, amount, writeOk)
        case Credit(amount, _, writeOk) => DoCredit(w, a, amount, writeOk)
        case MarkPro(_, writeOk) => DoMarkPro(w, a, writeOk)
        case MarkFree(_, writeOk) => DoMarkFree(w, a, writeOk)
  }

  function Run(w: World, rs: seq<Request>): World {
    if rs == [] then w else Handle(Run(w, rs[..|rs| - 1]), rs[|rs| - 1]).0
  }

  // ----- The books of a run -----

  /** What went in and out over a run: the seed, what was credited, what was given up on a change to
      the paid plan, every id recorded, and the resume signals that were never sent. */
  datatype Books = Books(seed: int, credited: int, forfeited: int, records: seq<string>, lost: nat)

  const EMPTY := Books(0, 0, 0, [], 0)

  predicate Rejected(r: Request) {
    (r.Debit? && (r.id == "" || r.amount <= 0)) || (r.Credit? && r.amount <= 0)
  }

  function Opened(h: Books, w: World, a: Account): Books {
    if w.account.None? then h.(seed := Max(0, a.balance)) else h
  }

  /** The entry for a request that found the account `a`. */
  function Entry(h: Books, a: Account, r: Request): Books {
    match r
    case Check(_) => h
    case Debit(id, _, _, _) => if a.plan == Free && id in a.ids then h else h.(records := h.records + [id])
    case Credit(amount, _, _) => if a.plan == Pro then h else h.(credited := h.credited + amount)
    case MarkPro(_, writeOk) =>
      h.(forfeited := h.forfeited + Max(0, a.balance),
         lost := if a.status == Halted && !writeOk then h.lost + 1 else h.lost)
    case MarkFree(_, _) => h
  }

  function Note(h: Books, w: World, r: Request): Books {
    if Rejected(r) || Loaded(w, r.readOk).None? then h
    else
      var a := Loaded(w, r.readOk).value;
      Entry(Opened(h, w, a), a, r)
  }

  function Kept(w: World, rs: seq<Request>): Books {
    if rs == [] then EMPTY
    else Note(Kept(w, rs[..|rs| - 1]), Run(w, rs[..|rs| - 1]), rs[|rs| - 1])
  }

  // ----- Invariant -----

  predicate Sound(a: Account) {
    && (a.plan == Pro ==> a.balance == -1 && a.status == Active)
    && (a.plan == Free ==> a.balance >= 0)
    && (a.status == Halted ==> a.balance == 0)
    && a.spent >= 0
  }

  function LastIds(records: seq<string>): seq<string> {
    if |records| > MAX_IDS then records[|records| - MAX_IDS..] else records
  }

  predicate Balanced(a: Account, h: Books) {
    Max(0, a.balance) + a.spent + h.forfeited == h.seed + h.credited && h.seed in {0, SEED_CENTS}
  }

  /** The signals alternate, starting with a halt. */
  predicate Alternates(sent: seq<Signal>) {
    forall i :: 0 <= i < |sent| ==> (sent[i] == Halt <==> i % 2 == 0)
  }

  predicate InForce(sent: seq<Signal>) {
    sent != [] && sent[|sent| - 1] == Halt
  }

  function Count(sent: seq<Signal>, s: Signal): nat {
    if sent == [] then 0 else Count(sent[..|sent| - 1], s) + if sent[|sent| - 1] == s then 1 else 0
  }

  predicate Signalled(a: Account, sent: seq<Signal>, lost: nat) {
    && Count(sent, Halt) - Count(sent, Resume) == (if a.status == Halted then 1 else 0) + lost
    && (lost == 0 ==> Alternates(sent) && (InForce(sent) <==> a.status == Halted))
  }

  predicate InvOf(a: Account, sent: seq<Signal>, h: Books) {
    Sound(a) && a.ids == LastIds(h.records) && Balanced(a, h) && Signalled(a, sent, h.lost)
  }

  predicate Inv(w: World, h: Books) {
    match w.account
    case None => h == EMPTY && w.sent == []
    case Some(a) => InvOf(a, w.sent, h)
  }

  lemma RecordIsLast(ids: seq<string>, records: seq<string>, id: string)
    requires ids == LastIds(records)
    ensures Record(ids, id) == LastIds(records + [id])
  {
  }

  lemma HaltSent(a: Account, b: Account, sent: seq<Signal>, lost: nat)
    requires Signalled(a, sent, lost) && a.status == Active && b.status == Halted
    ensures Signalled(b, sent + [Halt], lost)
  {
    assert (sent + [Halt])[..|sent|] == sent;
  }

  lemma ResumeSent(a: Account, b: Account, sent: seq<Signal>, lost: nat)
    requires Signalled(a, sent, lost) && a.status == Halted && b.status == Active
    ensures Signalled(b, sent + [Resume], lost)
  {
    assert (sent + [Resume])[..|sent|] == sent;
  }

  lemma {:induction false} DebitKeeps(w: World, a: Account, h: Books, r: Request)
    requires InvOf(a, w.sent, h) && r.Debit? && !Rejected(r)
    ensures Inv(DoDebit(w, a, r.id, r.amount, r.writeOk).0, Entry(h, a, r))
  {
    RecordIsLast(a.ids, h.records, r.id);
    if a.plan == Free && r.id !in a.ids {
      var b := Charge(a, r.id, r.amount);
      if b.balance == 0 && a.status == Active { HaltSent(a, b, w.sent, h.lost); }
    }
  }

  lemma CreditKeeps(w: World, a: Account, h: Books, r: Request)
    requires InvOf(a, w.sent, h) && r.Credit? && !Rejected(r)
    ensures Inv(DoCredit(w, a, r.amount, r.writeOk).0, Entry(h, a, r))
  {
    if a.status == Halted {
      ResumeSent(a, DoCredit(w, a, r.amount, r.writeOk).0.account.value, w.sent, h.lost);
    }
  }

  lemma MarkProKeeps(w: World, a: Account, h: Books, r: Request)
    requires InvOf(a, w.sent, h) && r.MarkPro?
    ensures Inv(DoMarkPro(w, a, r.writeOk).0, Entry(h, a, r))
  {
    if a.status == Halted && r.writeOk {
      ResumeSent(a, DoMarkPro(w, a, r.writeOk).0.account.value, w.sent, h.lost);
    }
  }

  lemma OpeningKeeps(w: World, h: Books, readOk: bool)
    requires Inv(w, h) && Loaded(w, readOk).Some?
    ensures InvOf(Loaded(w, readOk).value, w.sent, Opened(h, w, Loaded(w, readOk).value))
  {
  }

  lemma {:induction false} StepKeeps(w: World, h: Books, r: Request)
    requires Inv(w, h)
    ensures Inv(Handle(w, r).0, Note(h, w, r))
  {
    if !Rejected(r) && Loaded(w, r.readOk).Some? {
      var a := Loaded(w, r.readOk).value;
      var h1 := Opened(h, w, a);
      OpeningKeeps(w, h, r.readOk);
      match r
      case Check(_) =>
      case Debit(_, _, _, _) => DebitKeeps(w, a, h1, r);
      case Credit(_, _, _) => CreditKeeps(w, a, h1, r);
      case MarkPro(_, _) => MarkProKeeps(w, a, h1, r);
      case MarkFree(_, _) =>
    }
  }

  lemma {:induction false} RunKeeps(row: Option<Row>, rs: seq<Request>)
    ensures var w0 := World(None, row, []); Inv(Run(w0, rs), Kept(w0, rs))
  {
    var w0 := World(None, row, []);
    if rs != [] {
      var before, r := rs[..|rs| - 1], rs[|rs| - 1];
      RunKeeps(row, before);
      StepKeeps(Run(w0, before), Kept(w0, before), r);
    }
  }

  // ----- Money -----

  /** No cent appears or disappears over any run. */
  lemma {:induction false} Conservation(row: Option<Row>, rs: seq<Request>)
    ensures var w0 := World(None, row, []);
            var w, h := Run(w0, rs), Kept(w0, rs);
            w.account.Some? ==>
              var a := w.account.value;
              && Max(0, a.balance) + a.spent + h.forfeited == h.seed + h.credited && h.seed in {0, 500}
              && (a.plan == Pro ==> a.balance == -1 && a.status == Active)
              && (a.plan == Free ==> a.balance >= 0)
              && (a.status == Halted ==> a.plan == Free && a.balance == 0)
  {
    RunKeeps(row, rs);
  }

  /** A start is allowed unless the account is on the free plan with nothing left, so never while
      the account is halted. */
  lemma {:induction false} CheckIsGate(row: Option<Row>, rs: seq<Request>, readOk: bool)
    ensures var w := Run(World(None, row, []), rs);
            var resp := Handle(w, Check(readOk)).1;
            resp.Checked? ==>
              var a := Loaded(w, readOk).value;
              && (resp.allowed <==> !(a.plan == Free && a.balance == 0)) && Handle(w, Check(readOk)).0 == w.(account := Some(a))
              && (a.status == Halted ==> !resp.allowed)
  {
    RunKeeps(row, rs);
  }

  // ----- Idempotence -----

  /** On the free plan a debit is refused as a duplicate exactly if its id is among the last 1024
      recorded, whatever happened in between. */
  lemma {:induction false} DedupExactly(row: Option<Row>, rs: seq<Request>, r: Request)
    requires r.Debit? && !Rejected(r)
    ensures var w0 := World(None, row, []);
            var w, h := Run(w0, rs), Kept(w0, rs);
            Loaded(w, r.readOk).Some? && Loaded(w, r.readOk).value.plan == Free ==>
              Handle(w, r).1.Debited? && (Handle(w, r).1.deduped <==> r.id in LastIds(h.records))
  {
    RunKeeps(row, rs);
  }

  ghost function Total(price: map<string, nat>, ids: set<string>): nat
    requires ids <= price.Keys
  {
    if ids == {} then 0 else var x :| x in ids; price[x] + Total(price, ids - {x})
  }

  lemma {:induction false} TotalWith(price: map<string, nat>, ids: set<string>, y: string)
    requires ids <= price.Keys && y in price && y !in ids
    ensures Total(price, ids + {y}) == Total(price, ids) + price[y]
  {
    var all := ids + {y};
    var x :| x in all && Total(price, all) == price[x] + Total(price, all - {x});
    if x == y {
      assert all - {x} == ids;
    } else {
      TotalWith(price, ids - {x}, y);
      assert all - {x} == ids - {x} + {y};
      assert ids == ids - {x} + {x};
      TotalWith(price, ids - {x}, x);
    }
  }

  /** A debit of an event at its price, which `a` has not seen; D1 may fail it in any way. */
  predicate Bills(r: Request, price: map<string, nat>, a: Account) {
    r.Debit? && r.id in price && r.amount == price[r.id] > 0 && r.id != "" && r.id !in a.ids
  }

  ghost predicate AllBill(rs: seq<Request>, price: map<string, nat>, a: Account) {
    forall i :: 0 <= i < |rs| ==> Bills(rs[i], price, a)
  }

  function Ids(ids: seq<string>): set<string> {
    set id | id in ids
  }

  /** The events a run of debits names. */
  function Billed(rs: seq<Request>): set<string> {
    set r | r in rs && r.Debit? :: r.id
  }

  /** `b` is where `a` gets after the events `ids` were each charged once; `news` are the ids
      recorded on the way. */
  ghost predicate Charged(b: Account, a: Account, ids: set<string>, price: map<string, nat>, news: seq<string>) {
    && ids <= price.Keys && Sound(b) && b.plan == Free
    && b.balance == Max(0, a.balance - Total(price, ids))
    && b.spent == a.spent + a.balance - b.balance
    && Ids(news) == ids && |news| == |ids|
    && b.ids == LastIds(a.ids + news)
  }

  /** An event charged before is found among the last ids, and nothing changes. */
  lemma ChargedBefore(w: World, b: Account, a: Account, ids: set<string>, price: map<string, nat>, news: seq<string>, r: Request)
    requires w.account == Some(b) && Charged(b, a, ids, price, news) && |ids| <= MAX_IDS
    requires Bills(r, price, a) && r.id in ids
    ensures Handle(w, r).0.account == Some(b)
  {
    StillKnown(a.ids, news, r.id);
    assert r.id in Ids(news);
  }

  lemma ChargedNow(w: World, b: Account, a: Account, ids: set<string>, price: map<string, nat>, news: seq<string>, r: Request)
    requires w.account == Some(b) && Charged(b, a, ids, price, news) && |ids| <= MAX_IDS
    requires Bills(r, price, a) && r.id !in ids
    ensures Handle(w, r).0.account == Some(Charge(b, r.id, r.amount))
  {
    StillKnown(a.ids, news, r.id);
    assert r.id !in Ids(news);
  }

  lemma OneMoreCharged(b: Account, a: Account, ids: set<string>, price: map<string, nat>, news: seq<string>, id: string)
    requires Charged(b, a, ids, price, news) && Sound(a) && a.plan == Free && id in price && price[id] > 0 && id !in ids
    ensures Charged(Charge(b, id, price[id]), a, ids + {id}, price, news + [id])
  {
    TotalWith(price, ids, id);
    RecordIsLast(b.ids, a.ids + news, id);
    assert a.ids + news + [id] == a.ids + (news + [id]);
    assert Ids(news + [id]) == Ids(news) + {id};
  }

  lemma FewerIds(s: set<string>, id: string)
    ensures |s| <= |s + {id}|
    ensures id in s ==> s + {id} == s
    ensures id !in s ==> |s + {id}| == |s| + 1
  {
    if id in s { assert s + {id} == s; }
  }

  lemma BilledSnoc(rs: seq<Request>)
    requires rs != [] && rs[|rs| - 1].Debit?
    ensures Billed(rs) == Billed(rs[..|rs| - 1]) + {rs[|rs| - 1].id}
  {
    assert rs == rs[..|rs| - 1] + [rs[|rs| - 1]];
  }

  /** The last ids are found among those of the account and those recorded since. */
  lemma StillKnown(old': seq<string>, news: seq<string>, id: string)
    requires |news| <= MAX_IDS && id !in old'
    ensures id in LastIds(old' + news) <==> id in news
  {
    var all := old' + news;
    var last := LastIds(all);
    if id in news {
      var i :| 0 <= i < |news| && news[i] == id;
      assert last[i + |last| - |news|] == id;
    }
    if id in last {
      var i :| 0 <= i < |last| && last[i] == id;
      assert all[i + |all| - |last|] == id;
    }
  }

  lemma ChargedNone(a: Account, price: map<string, nat>)
    requires Sound(a) && a.plan == Free && |a.ids| <= MAX_IDS
    ensures Charged(a, a, {}, price, [])
  {
    assert Ids([]) == {} && a.ids + [] == a.ids;
  }

  lemma {:induction false} ChargeAll(w: World, a: Account, rs: seq<Request>, price: map<string, nat>)
      returns (b: Account, news: seq<string>)
    requires w.account == Some(a) && Sound(a) && a.plan == Free && |a.ids| <= MAX_IDS
    requires AllBill(rs, price, a) && |Billed(rs)| <= MAX_IDS
    ensures Run(w, rs).account == Some(b) && Charged(b, a, Billed(rs), price, news)
  {
    if rs == [] {
      b, news := a, [];
      ChargedNone(a, price);
    } else {
      var before, r := rs[..|rs| - 1], rs[|rs| - 1];
      BilledSnoc(rs);
      FewerIds(Billed(before), r.id);
      b, news := ChargeAll(w, a, before, price);
      if r.id in Billed(before) {
        ChargedBefore(Run(w, before), b, a, Billed(before), price, news, r);
      } else {
        ChargedNow(Run(w, before), b, a, Billed(before), price, news, r);
        OneMoreCharged(b, a, Billed(before), price, news, r.id);
        b, news := Charge(b, r.id, r.amount), news + [r.id];
      }
    }
  }

  /** Deliver a batch of at most 1024 events in any order, each any number of times, while reading or
      writing the row succeeds or fails: the balance ends at the start less the price of each event
      once, or at zero. */
  lemma {:induction false} EachChargedOnce(w: World, a: Account, rs: seq<Request>, price: map<string, nat>)
    requires w.account == Some(a) && Sound(a) && a.plan == Free && |a.ids| <= MAX_IDS
    requires AllBill(rs, price, a) && |Billed(rs)| <= MAX_IDS
    ensures Billed(rs) <= price.Keys
    ensures var w' := Run(w, rs);
            && w'.account.Some?
            && w'.account.value.balance == Max(0, a.balance - Total(price, Billed(rs)))
            && w'.account.value.spent - a.spent == a.balance - w'.account.value.balance
  {
    var b, news := ChargeAll(w, a, rs, price);
  }

  // ----- What each request does -----

  /** The ids kept are a tail of those recorded: the last 1024, or all if there are fewer. */
  lemma LastIdsExactly(records: seq<string>)
    ensures var ids := LastIds(records);
            |ids| == (if |records| < 1024 then |records| else 1024) && records[|records| - |ids|..] == ids
  {
  }

  /** A new account is on the plan of its row, with 500 cents if that is the free one. */
  lemma Opening(w: World)
    requires w.account.None?
    ensures Loaded(w, false).None?
    ensures var a := Loaded(w, true);
            && a.Some? && a.value.status == Active && a.value.spent == 0 && a.value.ids == []
            && (a.value.plan == Pro <==> w.row.Some? && w.row.value.plan == Pro)
            && a.value.balance == if a.value.plan == Pro then -1 else 500
  {
  }

  /** A debit of a new event takes what is there. It halts an active account exactly if it uses up the
      balance; then one halt is sent, the row says so if the write succeeds, and the response too. */
  lemma DebitExact(w: World, a: Account, r: Request)
    requires Loaded(w, r.readOk) == Some(a) && Sound(a) && a.plan == Free
    requires r.Debit? && r.id != "" && r.amount > 0 && r.id !in a.ids
    ensures var (w', resp) := Handle(w, r);
            var uses := r.amount >= a.balance;
            && w'.account.Some? && var b := w'.account.value;
            && b.plan == Free && b.balance == (if uses then 0 else a.balance - r.amount)
            && b.spent == a.spent + (if uses then a.balance else r.amount) && r.id in b.ids
            && (b.status == Halted <==> a.status == Halted || uses)
            && w'.sent == (if uses && a.status == Active then w.sent + [Halt] else w.sent)
            && w'.row == (if uses && a.status == Active && r.writeOk && w.row.Some?
                          then Some(Row(w.row.value.plan, true)) else w.row)
            && resp == Debited(false, b.balance, uses && a.status == Active)
  {
    assert Record(a.ids, r.id)[|Record(a.ids, r.id)| - 1] == r.id;
  }

  /** A debit that is not new, or of an account on the paid plan, takes nothing and signals nothing. */
  lemma DebitFree(w: World, a: Account, r: Request)
    requires r.Debit? && r.id != "" && r.amount > 0
    requires Loaded(w, r.readOk) == Some(a) && Sound(a) && (a.plan == Pro || r.id in a.ids)
    ensures var (w', resp) := Handle(w, r);
            && w'.account.Some? && w'.account.value == a.(ids := w'.account.value.ids) && r.id in w'.account.value.ids
            && w'.row == w.row && w'.sent == w.sent && resp == Debited(a.plan == Free, a.balance, false)
  {
    assert Record(a.ids, r.id)[|Record(a.ids, r.id)| - 1] == r.id;
  }

  /** A credit adds its amount. It resumes exactly a halted account; then one resume is sent, the row
      says so if the write succeeds, and the response too. */
  lemma CreditExact(w: World, a: Account, r: Request)
    requires Loaded(w, r.readOk) == Some(a) && Sound(a) && r.Credit? && r.amount > 0
    ensures var (w', resp) := Handle(w, r);
            var halted := a.status == Halted;
            if a.plan == Pro then w' == w.(account := Some(a)) && resp == Credited(-1, false)
            else
              && w'.account == Some(a.(balance := a.balance + r.amount, status := Active))
              && w'.sent == (if halted then w.sent + [Resume] else w.sent)
              && w'.row == (if halted && r.writeOk && w.row.Some? then Some(Row(w.row.value.plan, false)) else w.row)
              && resp == Credited(a.balance + r.amount, halted)
  {
  }

  /** A change of plan. To the paid plan: whatever was left is given up and a halted account is resumed,
      if the row can be written. To the free plan: the account starts from what it has. */
  lemma MarkExact(w: World, a: Account, r: Request)
    requires (r.MarkPro? || r.MarkFree?) && Loaded(w, r.readOk) == Some(a) && Sound(a)
    ensures var (w', resp) := Handle(w, r);
            var resumed := r.MarkPro? && r.writeOk && a.status == Halted;
            && w'.account == Some(if r.MarkPro? then Account(Pro, -1, a.spent, Active, a.ids)
                                  else Account(Free, if a.plan == Pro then 0 else a.balance, a.spent, a.status, a.ids))
            && w'.sent == (if resumed then w.sent + [Resume] else w.sent)
            && w'.row == (if !r.writeOk || w.row.None? then w.row
                          else if r.MarkPro? then Some(Row(Pro, false)) else Some(Row(Free, w.row.value.halted)))
            && resp == if !r.writeOk then Failed else if r.MarkPro? then Marked(Pro, a.status == Halted) else Marked(Free, false)
  {
  }

  /** Responses are true: a signal was sent exactly if the response says so, and the balance and the
      plan are those of the account. */
  lemma ResponseIsTrue(w: World, h: Books, r: Request)
    requires Inv(w, h)
    ensures var (w', resp) := Handle(w, r);
            && (resp.Debited? ==> w'.account.Some? && resp.balance == w'.account.value.balance)
            && (resp.Credited? ==> w'.account.Some? && resp.balance == w'.account.value.balance)
            && (resp.Checked? ==> w'.account.Some? && resp.balance == w'.account.value.balance && w'.sent == w.sent)
            && (resp.Marked? ==> w'.account.Some? && resp.plan == w'.account.value.plan)
            && (resp.Debited? || resp.Credited? || resp.Marked? ==> (resp.signalled <==> w'.sent != w.sent))
            && (resp.BadRequest? || resp.Ignored? <==> Rejected(r))
            && (resp.BadRequest? || resp.Ignored? ==> w' == w)
  {
  }

  // ----- Spent means halted -----

  /** On the free plan with nothing left, and not halted. */
  predicate SpentActive(w: World) {
    w.account.Some? && w.account.value.plan == Free && w.account.value.balance == 0 && w.account.value.status == Active
  }

  /** Only the end of a subscription brings an account there. */
  lemma SpentStep(w: World, h: Books, r: Request)
    requires Inv(w, h) && SpentActive(Handle(w, r).0)
    ensures SpentActive(w) || (r.MarkFree? && Loaded(w, r.readOk).Some? && Loaded(w, r.readOk).value.plan == Pro)
  {
  }

  /** In every run without one, an account on the free plan is halted exactly while it has nothing left. */
  lemma {:induction false} SpentMeansHalted(row: Option<Row>, rs: seq<Request>)
    requires forall i :: 0 <= i < |rs| ==> !rs[i].MarkFree?
    ensures var w := Run(World(None, row, []), rs);
            && !SpentActive(w)
            && (w.account.Some? && w.account.value.plan == Free ==>
                  (w.account.value.status == Halted <==> w.account.value.balance == 0))
  {
    var w0 := World(None, row, []);
    RunKeeps(row, rs);
    if rs != [] {
      var before, r := rs[..|rs| - 1], rs[|rs| - 1];
      SpentMeansHalted(row, before);
      RunKeeps(row, before);
      assert !r.MarkFree?;
      if SpentActive(Run(w0, rs)) { SpentStep(Run(w0, before), Kept(w0, before), r); }
    }
  }

  // ----- Halt and resume -----

  /** The signals alternate, and a halt is in force exactly while the account is halted, if and only
      if no change to the paid plan failed to write the row of a halted account. */
  lemma {:induction false} SignalsMatchStatus(row: Option<Row>, rs: seq<Request>)
    ensures var w0 := World(None, row, []);
            var w, h := Run(w0, rs), Kept(w0, rs);
            var halted := w.account.Some? && w.account.value.status == Halted;
            && (h.lost == 0 <==> Alternates(w.sent) && (InForce(w.sent) <==> halted))
            && Count(w.sent, Halt) - Count(w.sent, Resume) == (if halted then 1 else 0) + h.lost
  {
    RunKeeps(row, rs);
    var w := Run(World(None, row, []), rs);
    if Alternates(w.sent) { AlternatingCount(w.sent); }
  }

  lemma {:induction false} AlternatingCount(sent: seq<Signal>)
    requires Alternates(sent)
    ensures Count(sent, Halt) - Count(sent, Resume) == if InForce(sent) then 1 else 0
  {
    if sent != [] { AlternatingCount(sent[..|sent| - 1]); }
  }

  /** A change to the paid plan that fails to write the row leaves the sandboxes halted: the account
      is active again, repeating the request sends nothing, and the next signal is another halt. */
  lemma ResumeIsLost(w: World, a: Account, id: string, amount: int)
    requires w.account == Some(a) && Sound(a) && a.status == Halted
    requires id != "" && amount > 0 && id !in a.ids
    ensures var paid := Handle(w, MarkPro(true, false)).0;
            var free := Handle(paid, MarkFree(true, true)).0;
            var debited := Handle(free, Debit(id, amount, true, true)).0;
            && paid.account == Some(a.(plan := Pro, balance := -1, status := Active))
            && paid.sent == w.sent && Handle(paid, MarkPro(true, true)).0.sent == w.sent
            && debited.sent == w.sent + [Halt]
  {
    var paid := Handle(w, MarkPro(true, false)).0;
    var free := Handle(paid, MarkFree(true, true)).0;
    NextDebitHalts(free, free.account.value, Debit(id, amount, true, true));
  }

  /** On the free plan with nothing left and no halt yet, as after a cancelled subscription, the next
      debit halts the account if and only if its id is not taken for a duplicate. */
  lemma NextDebitHalts(w: World, a: Account, r: Request)
    requires w.account == Some(a) && Sound(a) && a.plan == Free && a.balance == 0 && a.status == Active
    requires r.Debit? && !Rejected(r)
    ensures var (w', resp) := Handle(w, r);
            && (r.id !in a.ids <==> w'.account.Some? && w'.account.value.status == Halted)
            && (r.id !in a.ids <==> w'.sent == w.sent + [Halt])
  {
  }

  // ----- The row in D1 -----

  predicate Mirrored(w: World) {
    w.row.Some? ==>
      match w.account
      case None => !w.row.value.halted
      case Some(a) => w.row.value == Row(a.plan, a.status == Halted)
  }

  /** Whether a request finds the row writable when it comes to write it. */
  predicate WritesLand(r: Request) {
    r.Check? || r.writeOk
  }

  lemma MirrorKept(w: World, r: Request)
    requires Mirrored(w) && WritesLand(r) && (w.account.Some? ==> Sound(w.account.value))
    ensures Mirrored(Handle(w, r).0)
  {
  }

  lemma {:induction false} MirrorRun(row: Option<Row>, rs: seq<Request>)
    requires row.Some? ==> !row.value.halted
    requires forall r <- rs :: WritesLand(r)
    ensures Mirrored(Run(World(None, row, []), rs))
  {
    if rs != [] {
      var before := rs[..|rs| - 1];
      forall r | r in before
        ensures WritesLand(r)
      {
        assert r in rs;
      }
      MirrorRun(row, before);
      RunKeeps(row, before);
      assert rs[|rs| - 1] in rs;
      MirrorKept(Run(World(None, row, []), before), rs[|rs| - 1]);
    }
  }

  /** A halt the row missed is not written again: no debit changes the row of a halted account. */
  lemma {:induction false} MissedHaltStays(w: World, a: Account, rs: seq<Request>)
    requires w.account == Some(a) && Sound(a) && a.status == Halted
    requires forall r <- rs :: r.Debit?
    ensures Run(w, rs).row == w.row
    ensures var b := Run(w, rs).account; b.Some? && Sound(b.value) && b.value.status == Halted
  {
    if rs != [] {
      var before := rs[..|rs| - 1];
      forall r | r in before
        ensures r.Debit?
      {
        assert r in rs;
      }
      MissedHaltStays(w, a, before);
      assert rs[|rs| - 1] in rs;
    }
  }
}
