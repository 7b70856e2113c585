/** The dictionaries in which blocks and transactions are stored and sent, and why reading one back
    keeps the serialized form: what is hashed, signed and stored again does not change. */
module Records {
  import opened Base
  import L = Ledger

  // Decimals keep their exponent: 1.0 and 1.00 are different records.
  datatype Decimal = Decimal(coefficient: int, exponent: int)

  datatype Value =
    | Null
    | Text(text: string)
    | Number(n: int)
    | Dec(d: Decimal)
    | Moment(time: string)
    | List(items: seq<Value>)
    | Dict(entries: map<string, Value>)

  // How numbers and times are written and read.
  datatype Codec = Codec(
    showInt: int -> string, readInt: string -> Option<int>,
    showDecimal: Decimal -> string, readDecimal: string -> Option<Decimal>,
    showTime: string -> string, readTime: string -> Option<string>
  )

  // Reading what was written gives it back.
  ghost predicate Faithful(c: Codec) {
    && (forall n :: c.readInt(c.showInt(n)) == Some(n))
    && (forall d :: c.readDecimal(c.showDecimal(d)) == Some(d))
    && (forall t :: c.readTime(c.showTime(t)) == Some(t))
  }

  // Decimals and times become text, all the way down.
  function Canonical(c: Codec, v: Value): Value {
    match v
    case Dec(d) => Text(c.showDecimal(d))
    case Moment(t) => Text(c.showTime(t))
    case List(items) => List(seq(|items|, i requires 0 <= i < |items| => Canonical(c, items[i])))
    case Dict(entries) => Dict(map k | k in entries :: Canonical(c, entries[k]))
    case _ => v
  }

  lemma {:induction false} CanonicalOnce(c: Codec, v: Value)
    ensures Canonical(c, Canonical(c, v)) == Canonical(c, v)
  {
    match v
    case List(items) =>
      forall i | 0 <= i < |items|
        ensures Canonical(c, Canonical(c, items[i])) == Canonical(c, items[i])
      {
        CanonicalOnce(c, items[i]);
      }
      assert Canonical(c, Canonical(c, v)).items == Canonical(c, v).items;
    case Dict(entries) =>
      forall k | k in entries
        ensures Canonical(c, Canonical(c, entries[k])) == Canonical(c, entries[k])
      {
        CanonicalOnce(c, entries[k]);
      }
      assert Canonical(c, Canonical(c, v)).entries == Canonical(c, v).entries;
    case _ =>
  }

  // ---- Transactions -----------------------------------------------------------------------

  datatype Transaction = Transaction(
    sender: string,
    receiver: string,
    amount: Decimal,
    fee: Decimal,
    timestamp: string,
    nonce: int,
    publicKey: Option<(int, int)>,
    signature: Option<string>,
    kind: string,
    payload: map<string, Value>,
    version: int
  )

  const TRANSFER: string := "transfer"

  // Construction fills in the kind and, for transfers, the payload.
  function Constructed(c: Codec, tx: Transaction): Transaction {
    var kind := if tx.kind == "" then TRANSFER else tx.kind;
    var payload := if kind == TRANSFER && tx.payload == map[]
                   then map["receiver" := Text(tx.receiver), "amount" := Text(c.showDecimal(tx.amount))] else tx.payload;
    tx.(kind := kind, payload := payload)
  }

  function KeyToDict(c: Codec, key: Option<(int, int)>): Value {
    if key.None? then Null
    else Dict(map["exponent" := Text(c.showInt(key.value.0)), "modulus" := Text(c.showInt(key.value.1))])
  }

  function ToDict(c: Codec, tx: Transaction): map<string, Value> {
    map[
      "sender" := Text(tx.sender), "receiver" := Text(tx.receiver),
      "amount" := Text(c.showDecimal(tx.amount)), "fee" := Text(c.showDecimal(tx.fee)),
      "timestamp" := Text(c.showTime(tx.timestamp)), "nonce" := Number(tx.nonce),
      "sender_public_key" := KeyToDict(c, tx.publicKey),
      "signature" := if tx.signature.Some? then Text(tx.signature.value) else Null,
      "kind" := Text(tx.kind), "payload" := Canonical(c, Dict(tx.payload)), "version" := Number(tx.version)
    ]
  }

  // None where reading raises an error.
  function ReadText(v: Value): Option<string> {
    if v.Text? then Some(v.text) else None
  }

  function ReadDecimal(c: Codec, v: Value): Option<Decimal> {
    if v.Text? then c.readDecimal(v.text) else None
  }

  function ReadInt(c: Codec, v: Value): Option<int> {
    match v
    case Number(n) => Some(n)
    case Text(t) => c.readInt(t)
    case _ => None
  }

  function ReadKey(c: Codec, v: Value): Option<Option<(int, int)>> {
    if v.Null? then Some(None)
    else if v.Dict? && "exponent" in v.entries && "modulus" in v.entries then
      var e, n := ReadInt(c, v.entries["exponent"]), ReadInt(c, v.entries["modulus"]);
      if e.Some? && n.Some? then Some(Some((e.value, n.value))) else None
    else None
  }

  function FromDict(c: Codec, d: map<string, Value>): Option<Transaction> {
    if "sender" !in d || "receiver" !in d || "amount" !in d || "timestamp" !in d then None else
    var sender, receiver, amount := ReadText(d["sender"]), ReadText(d["receiver"]), ReadDecimal(c, d["amount"]);
    var fee := ReadDecimal(c, Get(d, "fee", Text("0.0")));
    var time := if d["timestamp"].Text? then c.readTime(d["timestamp"].text) else None;
    var nonce, version := ReadInt(c, Get(d, "nonce", Number(0))), ReadInt(c, Get(d, "version", Number(L.LEGACY_VERSION)));
    var key := ReadKey(c, Get(d, "sender_public_key", Null));
    var signature, kind, payload := Get(d, "signature", Null), Get(d, "kind", Text(TRANSFER)), Get(d, "payload", Dict(map[]));
    if sender.None? || receiver.None? || amount.None? || fee.None? || time.None? || nonce.None? || version.None? || key.None?
       || !kind.Text? || !payload.Dict? || !(signature.Null? || signature.Text?)
    then None
    else Some(Constructed(c, Transaction(sender.value, receiver.value, amount.value, fee.value, time.value, nonce.value, key.value,
                                         ReadText(signature), kind.text, payload.entries, version.value)))
  }

  // What is signed and hashed: the fields as text, with the canonical payload unless the
  // transaction is of the legacy version.
  function SigningPayload(c: Codec, tx: Transaction): seq<Value> {
    var fields := [Text(tx.sender), Text(tx.receiver), Text(c.showDecimal(tx.amount)), Text(c.showDecimal(tx.fee)),
                   Number(tx.nonce), Text(c.showTime(tx.timestamp))];
    if tx.version == L.LEGACY_VERSION then fields
    else [Number(tx.version), Text(tx.kind)] + fields + [Canonical(c, Dict(tx.payload))]
  }

  lemma KeyRoundTrip(c: Codec, key: Option<(int, int)>)
    requires Faithful(c)
    ensures ReadKey(c, KeyToDict(c, key)) == Some(key)
  {
    if key.Some? {
      assert "exponent" != "modulus";
      var (e, n) := key.value;
      assert c.readInt(c.showInt(e)) == Some(e) && c.readInt(c.showInt(n)) == Some(n);
    }
  }

  lemma TextsRoundTrip(c: Codec, tx: Transaction)
    requires Faithful(c)
    ensures c.readDecimal(c.showDecimal(tx.amount)) == Some(tx.amount) && c.readDecimal(c.showDecimal(tx.fee)) == Some(tx.fee)
    ensures c.readTime(c.showTime(tx.timestamp)) == Some(tx.timestamp)
  {
  }

  lemma Entries(c: Codec, tx: Transaction)
    ensures var d := ToDict(c, tx);
            && "sender" in d && d["sender"] == Text(tx.sender)
            && "receiver" in d && d["receiver"] == Text(tx.receiver)
            && "amount" in d && d["amount"] == Text(c.showDecimal(tx.amount))
            && "fee" in d && d["fee"] == Text(c.showDecimal(tx.fee))
            && "timestamp" in d && d["timestamp"] == Text(c.showTime(tx.timestamp))
            && "nonce" in d && d["nonce"] == Number(tx.nonce)
            && "sender_public_key" in d && d["sender_public_key"] == KeyToDict(c, tx.publicKey)
            && "signature" in d && d["signature"] == (if tx.signature.Some? then Text(tx.signature.value) else Null)
            && "kind" in d && d["kind"] == Text(tx.kind)
            && "payload" in d && d["payload"] == Canonical(c, Dict(tx.payload))
            && "version" in d && d["version"] == Number(tx.version)
  {
    hide Canonical, KeyToDict;
  }

  lemma PayloadStaysFilled(c: Codec, payload: map<string, Value>)
    ensures Canonical(c, Dict(payload)).Dict? && (Canonical(c, Dict(payload)).entries == map[] ==> payload == map[])
  {
    assert Canonical(c, Dict(payload)).entries.Keys == payload.Keys;
  }

  // Reading back a constructed transaction gives the same one with a canonical payload; it is
  // written, signed and hashed as before.
  lemma TransactionRoundTrip(c: Codec, tx: Transaction)
    requires Faithful(c) && Constructed(c, tx) == tx
    ensures FromDict(c, ToDict(c, tx)) == Some(Stored(c, tx))
    ensures ToDict(c, Stored(c, tx)) == ToDict(c, tx) && SigningPayload(c, Stored(c, tx)) == SigningPayload(c, tx)
  {
    CanonicalOnce(c, Dict(tx.payload));
    PayloadStaysFilled(c, tx.payload);
    hide Canonical, Faithful, ReadKey, KeyToDict;
    assert ToDict(c, Stored(c, tx)) == ToDict(c, tx);
    ReadsBack(c, tx);
  }

  lemma ReadsBack(c: Codec, tx: Transaction)
    requires Faithful(c) && Constructed(c, tx) == tx
    ensures FromDict(c, ToDict(c, tx)) == Some(Stored(c, tx))
  {
    hide ToDict, Canonical, Faithful, ReadKey, KeyToDict;
    Entries(c, tx);
    KeyRoundTrip(c, tx.publicKey);
    TextsRoundTrip(c, tx);
    PayloadStaysFilled(c, tx.payload);
  }

  // A transaction as it is stored.
  function Stored(c: Codec, tx: Transaction): Transaction {
    var payload := Canonical(c, Dict(tx.payload));
    tx.(payload := if payload.Dict? then payload.entries else map[])
  }

  // ---- Blocks -----------------------------------------------------------------------------

  datatype Block = Block(
    id: int,
    transactions: seq<Transaction>,
    description: string,
    previousHash: string,
    nonce: int,
    noncesChecked: Option<int>,
    hash: string
  )

  function RecordsOf(c: Codec, txs: seq<Transaction>): seq<Value> {
    seq(|txs|, i requires 0 <= i < |txs| => Dict(ToDict(c, txs[i])))
  }

  function BlockToDict(c: Codec, b: Block): map<string, Value> {
    map[
      "block_id" := Number(b.id),
      "transactions" := List(RecordsOf(c, b.transactions)),
      "description" := Text(b.description), "previous_hash" := Text(b.previousHash),
      "nonce" := Number(b.nonce), "block_hash" := Text(b.hash)
    ] + (if b.noncesChecked.Some? then map["nonces_checked" := Number(b.noncesChecked.value)] else map[])
  }

  function ReadTransactions(c: Codec, items: seq<Value>): Option<seq<Transaction>> {
    if items == [] then Some([]) else
    var front, last := ReadTransactions(c, items[..|items| - 1]), items[|items| - 1];
    if front.None? || !last.Dict? || FromDict(c, last.entries).None? then None
    else Some(front.value + [FromDict(c, last.entries).value])
  }

  // The hash is the one claimed, not recomputed; a record without a hash is hashed anew.
  function BlockFromDict(c: Codec, hash: Block -> string, d: map<string, Value>): Option<Block> {
    if "transactions" !in d || "block_id" !in d || "description" !in d || "previous_hash" !in d || !d["transactions"].List? then None else
    var txs := ReadTransactions(c, d["transactions"].items);
    var id, nonce := ReadInt(c, d["block_id"]), ReadInt(c, Get(d, "nonce", Number(0)));
    var description, previous := ReadText(d["description"]), ReadText(d["previous_hash"]);
    var checked := Get(d, "nonces_checked", Null);
    if txs.None? || id.None? || nonce.None? || description.None? || previous.None? || (!checked.Null? && ReadInt(c, checked).None?) then None
    else
      var b := Block(id.value, txs.value, description.value, previous.value, nonce.value, ReadInt(c, checked), "");
      var claimed := Get(d, "block_hash", Null);
      if claimed.Null? then Some(b.(hash := hash(b)))
      else if claimed.Text? then Some(b.(hash := claimed.text)) else None
  }

  function StoredAll(c: Codec, txs: seq<Transaction>): seq<Transaction> {
    seq(|txs|, i requires 0 <= i < |txs| => Stored(c, txs[i]))
  }

  lemma {:induction false} TransactionsRoundTrip(c: Codec, txs: seq<Transaction>, items: seq<Value>)
    requires Faithful(c) && forall i :: 0 <= i < |txs| ==> Constructed(c, txs[i]) == txs[i]
    requires |items| == |txs| && forall i :: 0 <= i < |txs| ==> items[i] == Dict(ToDict(c, txs[i]))
    ensures ReadTransactions(c, items) == Some(StoredAll(c, txs))
  {
    hide ToDict, FromDict, Canonical, Constructed, Faithful, Stored;
    if txs != [] {
      TransactionsRoundTrip(c, txs[..|txs| - 1], items[..|items| - 1]);
      TransactionRoundTrip(c, txs[|txs| - 1]);
      assert StoredAll(c, txs) == StoredAll(c, txs[..|txs| - 1]) + [Stored(c, txs[|txs| - 1])];
    }
  }

  lemma BlockEntries(c: Codec, b: Block)
    ensures var d := BlockToDict(c, b);
            && "block_id" in d && d["block_id"] == Number(b.id)
            && "transactions" in d && d["transactions"].List? && |d["transactions"].items| == |b.transactions|
            && (forall i :: 0 <= i < |b.transactions| ==> d["transactions"].items[i] == Dict(ToDict(c, b.transactions[i])))
            && "description" in d && d["description"] == Text(b.description)
            && "previous_hash" in d && d["previous_hash"] == Text(b.previousHash)
            && "nonce" in d && d["nonce"] == Number(b.nonce)
            && "block_hash" in d && d["block_hash"] == Text(b.hash)
            && (if b.noncesChecked.Some? then "nonces_checked" in d && d["nonces_checked"] == Number(b.noncesChecked.value)
                else "nonces_checked" !in d)
  {
    hide ToDict;
  }

  lemma BlockReadsBack(c: Codec, hash: Block -> string, b: Block)
    requires Faithful(c) && forall i :: 0 <= i < |b.transactions| ==> Constructed(c, b.transactions[i]) == b.transactions[i]
    ensures BlockFromDict(c, hash, BlockToDict(c, b)) == Some(b.(transactions := StoredAll(c, b.transactions)))
  {
    hide BlockToDict, ToDict, Faithful, Constructed, ReadTransactions, StoredAll;
    BlockEntries(c, b);
    TransactionsRoundTrip(c, b.transactions, BlockToDict(c, b)["transactions"].items);
  }

  // A block read back keeps its claimed hash and every field, its transactions canonical, and is
  // written as before.
  lemma BlockRoundTrip(c: Codec, hash: Block -> string, b: Block)
    requires Faithful(c) && forall i :: 0 <= i < |b.transactions| ==> Constructed(c, b.transactions[i]) == b.transactions[i]
    ensures var back := b.(transactions := StoredAll(c, b.transactions));
            && BlockFromDict(c, hash, BlockToDict(c, b)) == Some(back)
            && BlockToDict(c, back) == BlockToDict(c, b)
            && forall i :: 0 <= i < |b.transactions| ==> SigningPayload(c, back.transactions[i]) == SigningPayload(c, b.transactions[i])
  {
    hide ToDict, FromDict, Canonical, Constructed, Faithful, SigningPayload, Stored, BlockFromDict;
    BlockReadsBack(c, hash, b);
    var txs, back := b.transactions, b.(transactions := StoredAll(c, b.transactions));
    forall i | 0 <= i < |txs|
      ensures ToDict(c, back.transactions[i]) == ToDict(c, txs[i])
      ensures SigningPayload(c, back.transactions[i]) == SigningPayload(c, txs[i])
    {
      TransactionRoundTrip(c, txs[i]);
    }
    assert RecordsOf(c, back.transactions) == RecordsOf(c, txs);
  }
}
