/** The hash-chained audit log of src/storage/audit.py.  The hash of a row is a
    parameter; from "tamper evidence" on it is a digest of the row's text. */
module Audit {
  import opened Text

  function Zeros(n: nat): (s: string)
    ensures |s| == n && forall i :: 0 <= i < n ==> s[i] == '0'
  {
    if n == 0 then "" else ['0'] + Zeros(n - 1)
  }

  const GENESIS: string := Zeros(64)

  datatype Row = Row(seqNo: int, event: string, payload: string, prevHash: string, hash: string)

  /** `chain_hash`: the hash of a row, from the hash before it and its content. */
  type RowHash = (string, int, string, string) -> string

  function PrevAt(rows: seq<Row>, i: nat): string
    requires i <= |rows|
  {
    if i == 0 then GENESIS else rows[i - 1].hash
  }

  /** A row that continues a chain whose last hash is `prev`. */
  predicate Links(d: RowHash, prev: string, row: Row) {
    row.prevHash == prev && row.hash == d(prev, row.seqNo, row.event, row.payload)
  }

  predicate Linked(d: RowHash, rows: seq<Row>, i: nat)
    requires i < |rows|
  {
    Links(d, PrevAt(rows, i), rows[i])
  }

  /** `verify`: the whole chain recomputes, from genesis to tip. */
  predicate ChainOk(d: RowHash, rows: seq<Row>) {
    forall i :: 0 <= i < |rows| ==> Linked(d, rows, i)
  }

  datatype Reason = Unbroken | PreviousHashDiffers | RowHashDiffers

  datatype ChainVerification = ChainVerification(ok: bool, checked: nat, firstBrokenSeq: int, reason: Reason)

  /** A verdict that is right: it accepts exactly the chains that recompute, and
      otherwise points at the first row that does not, and why. */
  predicate Explains(d: RowHash, rows: seq<Row>, v: ChainVerification) {
    && (v.ok <==> ChainOk(d, rows))
    && v.checked <= |rows|
    && (forall i :: 0 <= i < v.checked ==> Linked(d, rows, i))
    && (v.ok <==> v.checked == |rows|)
    && (!v.ok ==>
          && !Linked(d, rows, v.checked)
          && v.firstBrokenSeq == rows[v.checked].seqNo
          && (v.reason == PreviousHashDiffers <==> rows[v.checked].prevHash != PrevAt(rows, v.checked)))
  }

  /** `verify_chain` on the rows of one execution. */
  method VerifyRows(d: RowHash, rows: seq<Row>) returns (v: ChainVerification)
    ensures Explains(d, rows, v)
  {
    var prev, checked := GENESIS, 0;
    while checked < |rows|
      invariant 0 <= checked <= |rows| && prev == PrevAt(rows, checked)
      invariant forall i :: 0 <= i < checked ==> Linked(d, rows, i)
    {
      var row := rows[checked];
      assert Linked(d, rows, checked) <==> Links(d, prev, row);
      if row.prevHash != prev {
        return ChainVerification(false, checked, row.seqNo, PreviousHashDiffers);
      }
      if row.hash != d(prev, row.seqNo, row.event, row.payload) {
        return ChainVerification(false, checked, row.seqNo, RowHashDiffers);
      }
      prev, checked := row.hash, checked + 1;
    }
    v := ChainVerification(true, checked, 0, Unbroken);
  }

  /** Numbered 0, 1, 2, ... as `append` numbers its rows. */
  predicate Numbered(rows: seq<Row>) { forall i :: 0 <= i < |rows| ==> rows[i].seqNo == i }

  function NewRow(d: RowHash, rows: seq<Row>, event: string, payload: string): Row {
    var seqNo := if rows == [] then 0 else rows[|rows| - 1].seqNo + 1;
    var prev := PrevAt(rows, |rows|);
    Row(seqNo, event, payload, prev, d(prev, seqNo, event, payload))
  }

  /** The rows of one execution; an execution nobody wrote about has none. */
  function RowsOf(chains: map<string, seq<Row>>, execution: string): seq<Row> {
    if execution in chains then chains[execution] else []
  }

  function Appended(d: RowHash, chains: map<string, seq<Row>>, execution: string, event: string, payload: string)
    : map<string, seq<Row>>
  {
    var rows := RowsOf(chains, execution);
    chains[execution := rows + [NewRow(d, rows, event, payload)]]
  }

  /** Every chain has a row, verifies, and is numbered without gaps. */
  predicate AllOk(d: RowHash, chains: map<string, seq<Row>>) {
    forall e <- chains :: chains[e] != [] && ChainOk(d, chains[e]) && Numbered(chains[e])
  }

  lemma LinkedInPrefix(d: RowHash, rows: seq<Row>, n: nat, i: nat)
    requires i < n <= |rows|
    ensures Linked(d, rows[..n], i) <==> Linked(d, rows, i)
  {
    assert PrevAt(rows[..n], i) == PrevAt(rows, i);
  }

  lemma PrefixGrows(d: RowHash, rows: seq<Row>, n: nat)
    requires n < |rows|
    ensures ChainOk(d, rows[..n + 1]) <==> ChainOk(d, rows[..n]) && Linked(d, rows, n)
  {
    var shorter, longer := rows[..n], rows[..n + 1];
    forall i | 0 <= i < n ensures Linked(d, shorter, i) <==> Linked(d, rows, i) {
      LinkedInPrefix(d, rows, n, i);
    }
    forall i | 0 <= i < n + 1 ensures Linked(d, longer, i) <==> Linked(d, rows, i) {
      LinkedInPrefix(d, rows, n + 1, i);
    }
    if ChainOk(d, longer) {
      assert Linked(d, longer, n);
      assert forall i :: 0 <= i < n ==> Linked(d, longer, i) && Linked(d, shorter, i);
    }
  }

  /** An append keeps a chain verifying and its rows numbered without gaps. */
  lemma AppendKeepsChain(d: RowHash, rows: seq<Row>, event: string, payload: string)
    ensures ChainOk(d, rows) <==> ChainOk(d, rows + [NewRow(d, rows, event, payload)])
    ensures Numbered(rows) ==> Numbered(rows + [NewRow(d, rows, event, payload)])
  {
    var rows' := rows + [NewRow(d, rows, event, payload)];
    PrefixGrows(d, rows', |rows|);
    assert rows'[..|rows|] == rows && rows'[..|rows| + 1] == rows';
    assert PrevAt(rows', |rows|) == PrevAt(rows, |rows|);
  }

  /** Whatever is appended, every chain of the store goes on verifying. */
  lemma AppendKeepsStore(d: RowHash, chains: map<string, seq<Row>>, execution: string, event: string, payload: string)
    ensures AllOk(d, chains) ==> AllOk(d, Appended(d, chains, execution, event, payload))
  {
    AppendKeepsChain(d, RowsOf(chains, execution), event, payload);
  }

  class AuditStore {
    const d: RowHash
    /** The rows of each execution, in `seq` order. */
    var chains: map<string, seq<Row>>

    constructor (d: RowHash)
      ensures this.d == d && chains == map[]
    {
      this.d := d;
      chains := map[];
    }

    function Events(execution: string): seq<Row>
      reads this
    {
      RowsOf(chains, execution)
    }

    method Append(execution: string, event: string, payload: string) returns (row: Row)
      modifies this`chains
      ensures row == NewRow(d, old(Events(execution)), event, payload)
      ensures chains == Appended(d, old(chains), execution, event, payload)
    {
      var rows := Events(execution);
      var seqNo, prev := 0, GENESIS;
      if rows != [] {
        seqNo, prev := rows[|rows| - 1].seqNo + 1, rows[|rows| - 1].hash;
      }
      row := Row(seqNo, event, payload, prev, d(prev, seqNo, event, payload));
      chains := chains[execution := rows + [row]];
    }

    method VerifyChain(execution: string) returns (v: ChainVerification)
      ensures Explains(d, Events(execution), v)
    {
      v := VerifyRows(d, Events(execution));
    }
  }

  // --------------------------------------------------------- tamper evidence

  /** What `hexdigest` promises: 64 characters, none of them the separator. */
  ghost predicate IsDigest(h: string -> string) {
    forall x :: |h(x)| == 64 && '|' !in h(x)
  }

  /** The text `chain_hash` hashes. */
  function Body(prev: string, seqNo: int, event: string, payload: string): string {
    prev + "|" + (Decimal(seqNo) + "|" + (event + "|" + payload))
  }

  function BodyAt(rows: seq<Row>, i: nat): string
    requires i < |rows|
  {
    Body(PrevAt(rows, i), rows[i].seqNo, rows[i].event, rows[i].payload)
  }

  function ChainHash(h: string -> string): RowHash {
    (prev, seqNo, event, payload) => h(Body(prev, seqNo, event, payload))
  }

  /** Two different texts with one digest. */
  predicate Collide(h: string -> string, x: string, y: string) { x != y && h(x) == h(y) }

  /** The hash fails at one place of two lists of texts. */
  predicate CollideSomewhere(h: string -> string, a: seq<string>, b: seq<string>)
    requires |a| == |b|
  {
    exists i :: 0 <= i < |a| && Collide(h, a[i], b[i])
  }

  /** A text that begins with the digest of the one before it. */
  predicate Follows(h: string -> string, before: string, text: string) {
    |text| >= 64 && text[..64] == h(before)
  }

  predicate FollowsAt(h: string -> string, texts: seq<string>, i: nat)
    requires i < |texts|
  {
    i == 0 || Follows(h, texts[i - 1], texts[i])
  }

  /** The hashed texts of a chain. */
  predicate Nested(h: string -> string, texts: seq<string>) {
    forall i :: 0 <= i < |texts| ==> FollowsAt(h, texts, i)
  }

  lemma NestedInit(h: string -> string, texts: seq<string>)
    requires Nested(h, texts) && texts != []
    ensures Nested(h, texts[..|texts| - 1])
    ensures |texts| > 1 ==> Follows(h, texts[|texts| - 2], texts[|texts| - 1])
  {
    var init := texts[..|texts| - 1];
    forall i | 0 <= i < |init| ensures FollowsAt(h, init, i) {
      assert FollowsAt(h, texts, i);
    }
    assert FollowsAt(h, texts, |texts| - 1);
  }

  /** Working back from the head: two such lists of one length whose last texts have
      the same digest are equal, or two different texts at one place have the same
      digest. */
  lemma {:induction false} SameHeadSameTexts(h: string -> string, a: seq<string>, b: seq<string>)
    requires Nested(h, a) && Nested(h, b) && |a| == |b|
    requires a != [] ==> h(a[|a| - 1]) == h(b[|b| - 1])
    ensures a == b || CollideSomewhere(h, a, b)
    decreases |a|
  {
    if a != [] {
      var n := |a| - 1;
      if a[n] == b[n] {
        NestedInit(h, a);
        NestedInit(h, b);
        SameHeadSameTexts(h, a[..n], b[..n]);
        if a[..n] == b[..n] {
          assert a == a[..n] + [a[n]] && b == b[..n] + [b[n]];
        } else {
          var i :| 0 <= i < n && Collide(h, a[..n][i], b[..n][i]);
          assert Collide(h, a[i], b[i]);
        }
      } else {
        assert Collide(h, a[n], b[n]);
      }
    }
  }

  function Bodies(rows: seq<Row>): seq<string> {
    seq(|rows|, i requires 0 <= i < |rows| => BodyAt(rows, i))
  }

  lemma BodyStarts(prev: string, seqNo: int, event: string, payload: string)
    ensures |Body(prev, seqNo, event, payload)| >= |prev|
    ensures Body(prev, seqNo, event, payload)[..|prev|] == prev
  {
  }

  lemma BodyFollows(h: string -> string, rows: seq<Row>, i: nat)
    requires IsDigest(h) && ChainOk(ChainHash(h), rows) && 0 < i < |rows|
    ensures Follows(h, BodyAt(rows, i - 1), BodyAt(rows, i))
  {
    assert Linked(ChainHash(h), rows, i - 1);
    BodyStarts(PrevAt(rows, i), rows[i].seqNo, rows[i].event, rows[i].payload);
  }

  lemma BodiesFollow(h: string -> string, rows: seq<Row>, i: nat)
    requires IsDigest(h) && ChainOk(ChainHash(h), rows) && i < |rows|
    ensures FollowsAt(h, Bodies(rows), i)
  {
    if i > 0 {
      BodyFollows(h, rows, i);
      assert Bodies(rows)[i - 1] == BodyAt(rows, i - 1) && Bodies(rows)[i] == BodyAt(rows, i);
    }
  }

  lemma ChainNests(h: string -> string, rows: seq<Row>)
    requires IsDigest(h) && ChainOk(ChainHash(h), rows)
    ensures Nested(h, Bodies(rows))
  {
    forall i | 0 <= i < |Bodies(rows)| ensures FollowsAt(h, Bodies(rows), i) {
      BodiesFollow(h, rows, i);
    }
  }

  lemma HeadHash(h: string -> string, rows: seq<Row>)
    requires ChainOk(ChainHash(h), rows) && rows != []
    ensures rows[|rows| - 1].hash == h(Bodies(rows)[|rows| - 1])
  {
    assert Linked(ChainHash(h), rows, |rows| - 1);
  }

  /** Two verifying chains of one length and head have hashed the same text at every
      row, unless two of their own texts collide. */
  lemma SameHeadSameBodies(h: string -> string, rows: seq<Row>, rows': seq<Row>)
    requires IsDigest(h) && ChainOk(ChainHash(h), rows) && ChainOk(ChainHash(h), rows') && |rows| == |rows'|
    requires rows != [] ==> rows[|rows| - 1].hash == rows'[|rows| - 1].hash
    ensures Bodies(rows) == Bodies(rows') || CollideSomewhere(h, Bodies(rows), Bodies(rows'))
  {
    ChainNests(h, rows);
    ChainNests(h, rows');
    if rows != [] {
      HeadHash(h, rows);
      HeadHash(h, rows');
    }
    SameHeadSameTexts(h, Bodies(rows), Bodies(rows'));
  }

  /** The part of the hashed text after the number. */
  function Content(event: string, payload: string): string { event + "|" + payload }

  predicate BarFree(event: string, payload: string) { '|' !in event && '|' !in payload }

  lemma OneBar(e: string, x: string, f: string, y: string)
    requires BarFree(e, x) && Content(e, x) == Content(f, y)
    ensures e == f && x == y
  {
    var t := Content(f, y);
    assert t[|f|] == '|';
    assert forall j :: 0 <= j < |t| && t[j] == '|' ==> j == |e|;
    assert Content(e, x)[..|e|] == e && t[..|f|] == f && Content(e, x)[|e| + 1..] == x && t[|f| + 1..] == y;
  }

  lemma {:induction false} CutAtBar(t: string) returns (a: string, b: string)
    requires '|' in t
    ensures t == a + "|" + b
  {
    if t[0] == '|' {
      a, b := "", t[1..];
    } else {
      assert t == [t[0]] + t[1..];
      a, b := CutAtBar(t[1..]);
      a := [t[0]] + a;
    }
  }

  /** Two different rows with one text. */
  predicate Twins(e: string, x: string, f: string, y: string) {
    Content(e, x) == Content(f, y) && (e != f || x != y)
  }

  lemma FindTwin(e: string, x: string) returns (f: string, y: string)
    requires !BarFree(e, x)
    ensures Twins(e, x, f, y)
  {
    if '|' in e {
      var a, b := CutAtBar(e);
      f, y := a, b + "|" + x;
      assert Content(e, x) == a + "|" + (b + "|" + x) && |f| < |e|;
    } else {
      var a, b := CutAtBar(x);
      f, y := e + "|" + a, b;
      assert Content(e, x) == (e + "|" + a) + "|" + b && |f| > |e|;
    }
  }

  /** Another event name and payload with the same text exist exactly when one of the
      two holds the separator. */
  lemma TwinsExactly(e: string, x: string)
    ensures (exists f, y :: Twins(e, x, f, y)) <==> '|' in e || '|' in x
  {
    if BarFree(e, x) {
      forall f, y ensures !Twins(e, x, f, y) {
        if Content(e, x) == Content(f, y) { OneBar(e, x, f, y); }
      }
    } else {
      var f, y := FindTwin(e, x);
      assert Twins(e, x, f, y);
    }
  }

  lemma BodySplits(p: string, q: string, s: int, t: int, u: string, v: string)
    requires |p| == |q| && p + "|" + (Decimal(s) + "|" + u) == q + "|" + (Decimal(t) + "|" + v)
    ensures p == q && s == t && u == v
  {
    var a, b := p + "|" + (Decimal(s) + "|" + u), q + "|" + (Decimal(t) + "|" + v);
    assert a[..|p|] == p && b[..|q|] == q;
    assert a[|p| + 1..] == Decimal(s) + "|" + u && b[|q| + 1..] == Decimal(t) + "|" + v;
    NoBarInDecimal(s);
    NoBarInDecimal(t);
    CutAt('|', Decimal(s), Decimal(t), u, v);
    DecimalInjective(s, t);
  }

  /** A row whose event name and payload hold no separator is the only row with its
      hashed text, whatever the other row holds. */
  lemma SameBodySameRow(p: string, q: string, s: int, t: int, e: string, f: string, x: string, y: string)
    requires |p| == |q| && BarFree(e, x)
    ensures Body(p, s, e, x) == Body(q, t, f, y) <==> p == q && s == t && e == f && x == y
  {
    if Body(p, s, e, x) == Body(q, t, f, y) {
      BodySplits(p, q, s, t, Content(e, x), Content(f, y));
      OneBar(e, x, f, y);
    }
  }

  lemma NoBarInDecimal(n: int)
    ensures '|' !in Decimal(n)
  {
  }

  /** A payload that `canonical_payload` writes, with a bar in a value, and its twin. */
  lemma BarInPayloadIsAmbiguous(prev: string, seqNo: int)
    ensures Body(prev, seqNo, "a", "{\"k\": \"x|y\"}") == Body(prev, seqNo, "a|{\"k\": \"x", "y\"}")
  {
    assert Content("a", "{\"k\": \"x|y\"}") == Content("a|{\"k\": \"x", "y\"}");
  }

  // ------------------------------------------------- what verification catches

  lemma NextHoldsHash(d: RowHash, rows: seq<Row>, i: nat)
    requires ChainOk(d, rows) && i + 1 < |rows|
    ensures rows[i + 1].prevHash == rows[i].hash
  {
    assert Linked(d, rows, i + 1);
  }

  /** One row replaced by another in a chain: if both chains verify, and the row is not
      the last or keeps its hash, the two rows were hashed from one text or the hash
      collides on their texts. */
  lemma EditIsCaught(h: string -> string, rows: seq<Row>, i: nat, row: Row)
    requires i < |rows| && ChainOk(ChainHash(h), rows) && ChainOk(ChainHash(h), rows[i := row])
    requires i + 1 < |rows| || row.hash == rows[i].hash
    ensures BodyAt(rows[i := row], i) == BodyAt(rows, i) || Collide(h, BodyAt(rows, i), BodyAt(rows[i := row], i))
  {
    var edited := rows[i := row];
    if i + 1 < |rows| {
      NextHoldsHash(ChainHash(h), rows, i);
      NextHoldsHash(ChainHash(h), edited, i);
    }
    assert Linked(ChainHash(h), rows, i) && Linked(ChainHash(h), edited, i);
  }

  /** A row taken out of a chain: if the rest still verifies, the row had the hash of
      the row before it (or, as the first row, hashed to the genesis value). */
  lemma RemovalIsCaught(d: RowHash, rows: seq<Row>, i: nat)
    requires i + 1 < |rows| && ChainOk(d, rows) && ChainOk(d, rows[..i] + rows[i + 1..])
    ensures rows[i].hash == PrevAt(rows, i)
  {
    var rest := rows[..i] + rows[i + 1..];
    assert rest[i] == rows[i + 1] && PrevAt(rest, i) == PrevAt(rows, i);
    assert Linked(d, rest, i);
    NextHoldsHash(d, rows, i);
  }

  lemma BodyTellsNumber(p: string, q: string, s: int, t: int, e: string, f: string, x: string, y: string)
    requires |p| == |q| && s != t
    ensures Body(p, s, e, x) != Body(q, t, f, y)
  {
    if Body(p, s, e, x) == Body(q, t, f, y) {
      BodySplits(p, q, s, t, Content(e, x), Content(f, y));
    }
  }

  lemma PrevLength(h: string -> string, rows: seq<Row>, i: nat)
    requires IsDigest(h) && ChainOk(ChainHash(h), rows) && i <= |rows|
    ensures |PrevAt(rows, i)| == 64
  {
    if i > 0 {
      assert Linked(ChainHash(h), rows, i - 1);
      assert PrevAt(rows, i) == h(BodyAt(rows, i - 1));
    }
  }

  /** So taking out any row but the first or last of a numbered chain is caught, unless
      two of its own texts collide. */
  lemma InnerRemovalNeedsCollision(h: string -> string, rows: seq<Row>, i: nat)
    requires IsDigest(h) && Numbered(rows) && 0 < i && i + 1 < |rows|
    requires ChainOk(ChainHash(h), rows) && ChainOk(ChainHash(h), rows[..i] + rows[i + 1..])
    ensures Collide(h, BodyAt(rows, i - 1), BodyAt(rows, i))
  {
    RemovalIsCaught(ChainHash(h), rows, i);
    assert Linked(ChainHash(h), rows, i) && Linked(ChainHash(h), rows, i - 1);
    PrevLength(h, rows, i);
    PrevLength(h, rows, i - 1);
    var r, s := rows[i - 1], rows[i];
    BodyTellsNumber(PrevAt(rows, i - 1), PrevAt(rows, i), r.seqNo, s.seqNo, r.event, s.event, r.payload, s.payload);
  }

  /** Cutting a chain short is what verification alone cannot see. */
  lemma TruncationVerifies(d: RowHash, rows: seq<Row>, n: nat)
    requires ChainOk(d, rows) && n <= |rows|
    ensures ChainOk(d, rows[..n])
  {
    forall i | 0 <= i < n ensures Linked(d, rows[..n], i) {
      assert Linked(d, rows, i);
      LinkedInPrefix(d, rows, n, i);
    }
  }
}
