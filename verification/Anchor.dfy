/** Anchoring the audit chains (src/storage/anchor.py): one digest over every chain
    head, kept elsewhere, so that a later rewrite of the chains shows. */
module Anchor {
  import opened Text
  import opened Json
  import opened Audit

  // -- ordering ------------------------------------------------------------

  /** Python's order on strings. */
  predicate Less(a: string, b: string) {
    b != "" && (a == "" || a[0] < b[0] || (a[0] == b[0] && Less(a[1..], b[1..])))
  }

  lemma {:induction false} LessTotal(a: string, b: string)
    ensures Less(a, b) || Less(b, a) || a == b
    ensures !(Less(a, b) && Less(b, a)) && !Less(a, a)
  {
    if a != "" {
      LessTotal(a[1..], a[1..]);
      if b != "" {
        LessTotal(a[1..], b[1..]);
        assert a == [a[0]] + a[1..] && b == [b[0]] + b[1..];
      }
    }
  }

  lemma {:induction false} LessTransitive(a: string, b: string, c: string)
    requires Less(a, b) && Less(b, c)
    ensures Less(a, c)
  {
    if a != "" && a[0] == b[0] && b[0] == c[0] {
      LessTransitive(a[1..], b[1..], c[1..]);
    }
  }

  // -- heads ---------------------------------------------------------------

  datatype Head = Head(executionId: string, events: nat, headHash: string)

  type Chains = map<string, seq<Row>>

  function HeadOf(id: string, rows: seq<Row>): Head {
    Head(id, |rows|, if rows == [] then "" else rows[|rows| - 1].hash)
  }

  predicate Ascending(heads: seq<Head>) {
    forall i, j :: 0 <= i < j < |heads| ==> Less(heads[i].executionId, heads[j].executionId)
  }

  /** The heads of a store: one per chain, in the order of the execution ids. */
  predicate HeadsOf(chains: Chains, heads: seq<Head>) {
    && Ascending(heads)
    && (forall head <- heads :: head.executionId in chains && head == HeadOf(head.executionId, chains[head.executionId]))
    && (forall id <- chains :: HeadOf(id, chains[id]) in heads)
  }

  /** Put a head where `sorted` puts it. */
  function Insert(heads: seq<Head>, head: Head): (r: seq<Head>)
    ensures multiset(r) == multiset(heads) + multiset{head}
  {
    if heads == [] || Less(head.executionId, heads[0].executionId) then [head] + heads
    else assert heads == [heads[0]] + heads[1..]; [heads[0]] + Insert(heads[1..], head)
  }

  function Sorted(heads: seq<Head>): (r: seq<Head>)
    ensures multiset(r) == multiset(heads)
  {
    if heads == [] then []
    else assert heads == heads[..|heads| - 1] + [heads[|heads| - 1]];
         Insert(Sorted(heads[..|heads| - 1]), heads[|heads| - 1])
  }

  lemma SameElements<T>(a: seq<T>, b: seq<T>, x: T)
    requires multiset(a) == multiset(b)
    ensures x in a <==> x in b
  {
    assert x in a <==> x in multiset(a);
  }

  lemma AscendingCons(head: Head, heads: seq<Head>)
    ensures Ascending([head] + heads) <==>
            Ascending(heads) && forall x <- heads :: Less(head.executionId, x.executionId)
  {
    var all := [head] + heads;
    if Ascending(all) {
      assert forall i :: 0 <= i < |heads| ==> heads[i] == all[i + 1];
      forall x | x in heads ensures Less(head.executionId, x.executionId) {
        var i :| 0 <= i < |heads| && heads[i] == x;
        assert Less(all[0].executionId, all[i + 1].executionId);
      }
      forall i, j | 0 <= i < j < |heads| ensures Less(heads[i].executionId, heads[j].executionId) {
        assert Less(all[i + 1].executionId, all[j + 1].executionId);
      }
    }
  }

  lemma {:induction false} InsertAscends(heads: seq<Head>, head: Head)
    requires Ascending(heads) && forall x <- heads :: x.executionId != head.executionId
    ensures Ascending(Insert(heads, head))
  {
    if heads == [] {
    } else {
      var first, rest := heads[0], heads[1..];
      assert heads == [first] + rest;
      AscendingCons(first, rest);
      LessTotal(head.executionId, first.executionId);
      if Less(head.executionId, first.executionId) {
        forall x | x in heads ensures Less(head.executionId, x.executionId) {
          if x != first { LessTransitive(head.executionId, first.executionId, x.executionId); }
        }
        AscendingCons(head, heads);
      } else {
        InsertAscends(rest, head);
        forall x | x in Insert(rest, head) ensures Less(first.executionId, x.executionId) {
          SameElements(Insert(rest, head), rest + [head], x);
        }
        AscendingCons(first, Insert(rest, head));
      }
    }
  }

  predicate DistinctIds(heads: seq<Head>) {
    forall i, j :: 0 <= i < j < |heads| ==> heads[i].executionId != heads[j].executionId
  }

  /** `sorted` puts heads with distinct ids in the order of their ids. */
  lemma {:induction false} SortedAscends(heads: seq<Head>)
    requires DistinctIds(heads)
    ensures Ascending(Sorted(heads))
  {
    if heads != [] {
      var init, last := heads[..|heads| - 1], heads[|heads| - 1];
      SortedAscends(init);
      forall x | x in Sorted(init) ensures x.executionId != last.executionId {
        SameElements(Sorted(init), init, x);
      }
      InsertAscends(Sorted(init), last);
    }
  }

  /** `chain_heads`, taking the execution ids in any order. */
  method ChainHeads(chains: Chains) returns (heads: seq<Head>)
    ensures HeadsOf(chains, heads)
  {
    var found: seq<Head> := [];
    var rest := chains.Keys;
    while rest != {}
      invariant rest <= chains.Keys && DistinctIds(found)
      invariant forall x <- found :: x.executionId in chains.Keys - rest && x == HeadOf(x.executionId, chains[x.executionId])
      invariant forall id <- chains.Keys - rest :: HeadOf(id, chains[id]) in found
      decreases |rest|
    {
      var id :| id in rest;
      found := found + [HeadOf(id, chains[id])];
      rest := rest - {id};
    }
    heads := Sorted(found);
    SortedAscends(found);
    forall x: Head ensures x in heads <==> x in found { SameElements(heads, found, x); }
  }

  /** Whatever order the store lists its executions in, the heads come out the same. */
  lemma {:induction false} AscendingUnique(a: seq<Head>, b: seq<Head>)
    requires Ascending(a) && Ascending(b) && forall x: Head :: x in a <==> x in b
    ensures a == b
  {
    assert b != [] ==> b[0] in a;
    if a != [] {
      assert a[0] in b;
      var x, y, s, t := a[0], b[0], a[1..], b[1..];
      assert a == [x] + s && b == [y] + t;
      AscendingCons(x, s);
      AscendingCons(y, t);
      LessTotal(x.executionId, y.executionId);
      assert x in b && y in a;
      assert x == y;
      forall z: Head ensures z in s <==> z in t {
        LessTotal(x.executionId, x.executionId);
        assert z in a <==> z in b;
      }
      AscendingUnique(s, t);
    }
  }

  lemma HeadsUnique(chains: Chains, a: seq<Head>, b: seq<Head>)
    requires HeadsOf(chains, a) && HeadsOf(chains, b)
    ensures a == b
  {
    forall x: Head ensures x in a <==> x in b { }
    AscendingUnique(a, b);
  }

  // -- digest --------------------------------------------------------------

  function HeadText(head: Head): string {
    "[" + (Quoted(head.executionId) + ("," + (Digits(head.events) + ("," + (Quoted(head.headHash) + "]")))))
  }

  /** The heads, separated by commas, and the closing bracket. */
  function HeadTexts(heads: seq<Head>): string {
    if heads == [] then "]"
    else if |heads| == 1 then HeadText(heads[0]) + "]"
    else HeadText(heads[0]) + ("," + HeadTexts(heads[1..]))
  }

  /** The canonical JSON text that `digest` hashes. */
  function Canonical(heads: seq<Head>): string { "[" + HeadTexts(heads) }

  function Digest(h: string -> string, heads: seq<Head>): string { h(Canonical(heads)) }

  lemma HeadTextRegroup(head: Head, x: string)
    ensures HeadText(head) + x == "[" + (Quoted(head.executionId) + HeadRest(head, x))
  {
  }

  function HeadRest(head: Head, x: string): string {
    "," + (Digits(head.events) + "," + (Quoted(head.headHash) + ("]" + x)))
  }

  lemma HeadRestCut(a: Head, b: Head, x: string, y: string)
    requires HeadRest(a, x) == HeadRest(b, y)
    ensures a.events == b.events && a.headHash == b.headHash && x == y
  {
    var s, t := Quoted(a.headHash) + ("]" + x), Quoted(b.headHash) + ("]" + y);
    assert HeadRest(a, x)[1..] == Digits(a.events) + "," + s;
    assert HeadRest(b, y)[1..] == Digits(b.events) + "," + t;
    CutAt(',', Digits(a.events), Digits(b.events), s, t);
    DigitsValue(a.events);
    DigitsValue(b.events);
    QuotedCut(a.headHash, b.headHash, "]" + x, "]" + y);
    assert ("]" + x)[1..] == x && ("]" + y)[1..] == y;
  }

  lemma HeadTextCut(a: Head, b: Head, x: string, y: string)
    requires HeadText(a) + x == HeadText(b) + y
    ensures a == b && x == y
  {
    var s, t := Quoted(a.executionId) + HeadRest(a, x), Quoted(b.executionId) + HeadRest(b, y);
    HeadTextRegroup(a, x);
    HeadTextRegroup(b, y);
    assert ("[" + s)[1..] == s && ("[" + t)[1..] == t;
    QuotedCut(a.executionId, b.executionId, HeadRest(a, x), HeadRest(b, y));
    HeadRestCut(a, b, x, y);
  }

  function Tail(heads: seq<Head>): string
    requires heads != []
  {
    if |heads| == 1 then "]" else "," + HeadTexts(heads[1..])
  }

  lemma HeadTextsSplit(heads: seq<Head>)
    ensures HeadTexts(heads) != "" && (HeadTexts(heads)[0] == ']' <==> heads == [])
    ensures heads != [] ==> HeadTexts(heads) == HeadText(heads[0]) + Tail(heads)
  {
  }

  lemma TailCut(a: seq<Head>, b: seq<Head>)
    requires a != [] && b != [] && Tail(a) == Tail(b)
    ensures |a| == 1 <==> |b| == 1
    ensures |a| > 1 ==> HeadTexts(a[1..]) == HeadTexts(b[1..])
  {
    assert Tail(a)[0] == Tail(b)[0];
    if |a| > 1 {
      assert Tail(a)[1..] == HeadTexts(a[1..]) && Tail(b)[1..] == HeadTexts(b[1..]);
    }
  }

  lemma FirstHead(a: seq<Head>, b: seq<Head>)
    requires HeadTexts(a) == HeadTexts(b)
    ensures a == [] <==> b == []
    ensures a != [] ==> a[0] == b[0] && Tail(a) == Tail(b)
  {
    HeadTextsSplit(a);
    HeadTextsSplit(b);
    if a != [] { HeadTextCut(a[0], b[0], Tail(a), Tail(b)); }
  }

  lemma SameEnds(a: seq<Head>, b: seq<Head>)
    requires a != [] && b != [] && a[0] == b[0] && a[1..] == b[1..]
    ensures a == b
  {
    assert a == [a[0]] + a[1..] && b == [b[0]] + b[1..];
  }

  /** The canonical text determines the list of heads. */
  lemma {:induction false} CanonicalInjective(a: seq<Head>, b: seq<Head>)
    requires HeadTexts(a) == HeadTexts(b)
    ensures a == b
  {
    FirstHead(a, b);
    if a != [] {
      TailCut(a, b);
      if |a| > 1 { CanonicalInjective(a[1..], b[1..]); }
      SameEnds(a, b);
    }
  }

  // -- the anchor document ---------------------------------------------------

  const ANCHOR_VERSION := "anchor-v1"

  datatype Document = Document(version: string, createdAt: string, chains: nat, events: nat,
                               digest: string, heads: seq<Head>, signed: bool, signature: string)

  function EventTotal(heads: seq<Head>): nat {
    if heads == [] then 0 else EventTotal(heads[..|heads| - 1]) + heads[|heads| - 1].events
  }

  /** `build_document`.  `mac` signs a document under a key without looking at its
      signature field. */
  function BuildDocument(h: string -> string, mac: (string, Document) -> string, heads: seq<Head>,
                         key: string, createdAt: string): Document
  {
    var document := Document(ANCHOR_VERSION, createdAt, |heads|, EventTotal(heads), Digest(h, heads), heads, key != "", "");
    if key != "" then document.(signature := mac(key, document)) else document
  }

  datatype Check =
    | Ok | VersionMismatch | KeyMissing | SignatureMismatch
    | HeadsChanged(added: set<string>, removed: set<string>, changed: set<string>)

  function HeadMap(heads: seq<Head>): map<string, Head> {
    if heads == [] then map[]
    else HeadMap(heads[..|heads| - 1])[heads[|heads| - 1].executionId := heads[|heads| - 1]]
  }

  function Diagnose(recorded: map<string, Head>, current: map<string, Head>): Check {
    HeadsChanged(current.Keys - recorded.Keys, recorded.Keys - current.Keys,
                 set id | id in recorded && id in current && recorded[id] != current[id])
  }

  function VerifyDocument(h: string -> string, mac: (string, Document) -> string, document: Document,
                          heads: seq<Head>, key: string): Check
  {
    if document.version != ANCHOR_VERSION then VersionMismatch
    else if document.signed && key == "" then KeyMissing
    else if document.signed && document.signature != mac(key, document.(signature := "")) then SignatureMismatch
    else if Digest(h, heads) != document.digest then Diagnose(HeadMap(document.heads), HeadMap(heads))
    else Ok
  }

  /** The stores an anchor talks about: no empty chain, and every chain verifies. */
  predicate Sound(h: string -> string, chains: Chains) {
    forall id <- chains :: chains[id] != [] && ChainOk(ChainHash(h), chains[id])
  }

  predicate SameHistory(before: Chains, now: Chains) {
    before.Keys == now.Keys && forall id <- before :: Bodies(before[id]) == Bodies(now[id])
  }

  /** The hash fails on one of the texts that these two stores hashed. */
  predicate Broken(h: string -> string, before: Chains, now: Chains, was: seq<Head>, heads: seq<Head>) {
    || Collide(h, Canonical(was), Canonical(heads))
    || exists id :: id in before && id in now && ChainsCollide(h, before[id], now[id])
  }

  predicate ChainsCollide(h: string -> string, rows: seq<Row>, rows': seq<Row>) {
    |rows| == |rows'| && CollideSomewhere(h, Bodies(rows), Bodies(rows'))
  }

  lemma SameDigestSameHeads(h: string -> string, a: seq<Head>, b: seq<Head>)
    requires Digest(h, a) == Digest(h, b)
    ensures a == b || Collide(h, Canonical(a), Canonical(b))
  {
    if Canonical(a) == Canonical(b) {
      assert Canonical(a)[1..] == HeadTexts(a) && Canonical(b)[1..] == HeadTexts(b);
      CanonicalInjective(a, b);
    }
  }

  lemma SameHeadsSameIds(before: Chains, now: Chains, heads: seq<Head>)
    requires HeadsOf(before, heads) && HeadsOf(now, heads)
    ensures before.Keys == now.Keys
    ensures forall id <- before :: HeadOf(id, before[id]) == HeadOf(id, now[id])
  {
    forall id | id in before ensures id in now && HeadOf(id, before[id]) == HeadOf(id, now[id]) {
      assert HeadOf(id, before[id]) in heads;
    }
    forall id | id in now ensures id in before {
      assert HeadOf(id, now[id]) in heads;
    }
  }

  /** If an anchor built from one store accepts the heads of another, both stores
      hashed the same history, chain by chain and row by row - no rewrite, however
      consistent, no truncation, extension, new chain or missing chain goes unseen -
      unless the hash collides on two of the very texts they hashed. */
  lemma AnchorSealsHistory(h: string -> string, mac: (string, Document) -> string, before: Chains, now: Chains,
                           was: seq<Head>, heads: seq<Head>, key: string, key': string, createdAt: string)
    requires IsDigest(h) && Sound(h, before) && Sound(h, now) && HeadsOf(before, was) && HeadsOf(now, heads)
    requires VerifyDocument(h, mac, BuildDocument(h, mac, was, key, createdAt), heads, key').Ok?
    ensures SameHistory(before, now) || Broken(h, before, now, was, heads)
  {
    SameDigestSameHeads(h, was, heads);
    if was == heads {
      SameHeadsSameIds(before, now, heads);
      forall id | id in before && !ChainsCollide(h, before[id], now[id]) ensures Bodies(before[id]) == Bodies(now[id]) {
        assert HeadOf(id, before[id]) == HeadOf(id, now[id]);
        SameHeadSameBodies(h, before[id], now[id]);
      }
    }
  }

  /** No separator in any event name or payload of the chain. */
  predicate Unambiguous(rows: seq<Row>) { forall row <- rows :: BarFree(row.event, row.payload) }

  lemma RowOf(h: string -> string, rows: seq<Row>, i: nat)
    requires ChainOk(ChainHash(h), rows) && i < |rows|
    ensures rows[i] == Row(rows[i].seqNo, rows[i].event, rows[i].payload, PrevAt(rows, i), h(Bodies(rows)[i]))
  {
    assert Linked(ChainHash(h), rows, i);
  }

  lemma RowFromBody(h: string -> string, rows: seq<Row>, rows': seq<Row>, i: nat)
    requires ChainOk(ChainHash(h), rows) && ChainOk(ChainHash(h), rows') && IsDigest(h) && Unambiguous(rows)
    requires i < |rows| && i < |rows'| && Bodies(rows)[i] == Bodies(rows')[i]
    ensures rows[i] == rows'[i]
  {
    RowOf(h, rows, i);
    RowOf(h, rows', i);
    PrevLength(h, rows, i);
    PrevLength(h, rows', i);
    var r, s := rows[i], rows'[i];
    assert r in rows;
    SameBodySameRow(PrevAt(rows, i), PrevAt(rows', i), r.seqNo, s.seqNo, r.event, s.event, r.payload, s.payload);
  }

  lemma {:induction false} SameBodiesSameRows(h: string -> string, rows: seq<Row>, rows': seq<Row>)
    requires ChainOk(ChainHash(h), rows) && ChainOk(ChainHash(h), rows') && IsDigest(h) && Unambiguous(rows)
    requires Bodies(rows) == Bodies(rows')
    ensures rows == rows'
  {
    assert |rows| == |Bodies(rows)| && |rows'| == |Bodies(rows')|;
    forall i | 0 <= i < |rows| ensures rows[i] == rows'[i] { RowFromBody(h, rows, rows', i); }
  }

  /** If the store holds no separator, the same history is the same store, row for row,
      whatever the other store holds. */
  lemma SameHistorySameStore(h: string -> string, before: Chains, now: Chains)
    requires IsDigest(h) && Sound(h, before) && Sound(h, now) && SameHistory(before, now)
    requires forall id <- before :: Unambiguous(before[id])
    ensures before == now
  {
    forall id | id in before ensures before[id] == now[id] {
      SameBodiesSameRows(h, before[id], now[id]);
    }
  }

  /** A row and its twin in the same place of a chain. */
  lemma TwinRow(h: string -> string, rows: seq<Row>, i: nat, e: string, x: string)
    requires ChainOk(ChainHash(h), rows) && i < |rows| && Twins(rows[i].event, rows[i].payload, e, x)
    ensures var other := rows[i := rows[i].(event := e, payload := x)];
            ChainOk(ChainHash(h), other) && Bodies(other) == Bodies(rows) && other != rows && HeadOf("", other) == HeadOf("", rows)
  {
    var other := rows[i := rows[i].(event := e, payload := x)];
    assert forall j :: 0 <= j <= |rows| ==> PrevAt(other, j) == PrevAt(rows, j);
    assert BodyAt(other, i) == BodyAt(rows, i);
    assert forall j :: 0 <= j < |rows| ==> BodyAt(other, j) == BodyAt(rows, j);
    forall j | 0 <= j < |other| ensures Linked(ChainHash(h), other, j) { assert Linked(ChainHash(h), rows, j); }
    assert other[i] != rows[i];
  }

  /** Another sound store with the same history - and so the same heads. */
  predicate Impostor(h: string -> string, before: Chains, now: Chains) {
    Sound(h, now) && SameHistory(before, now) && now != before
  }

  lemma FindImpostor(h: string -> string, before: Chains, id: string, i: nat) returns (now: Chains)
    requires Sound(h, before) && id in before && i < |before[id]| && !BarFree(before[id][i].event, before[id][i].payload)
    ensures Impostor(h, before, now)
    ensures forall heads :: HeadsOf(before, heads) ==> HeadsOf(now, heads)
  {
    var e, x := FindTwin(before[id][i].event, before[id][i].payload);
    TwinRow(h, before[id], i, e, x);
    var other := before[id][i := before[id][i].(event := e, payload := x)];
    now := before[id := other];
    assert now[id] != before[id];
    assert forall k <- before :: HeadOf(k, now[k]) == HeadOf(k, before[k]);
    forall heads | HeadsOf(before, heads) ensures HeadsOf(now, heads) { }
  }

  /** A history tells its store apart from every other exactly when no event name and no
      payload of the store holds the separator. */
  lemma StoreIsDetermined(h: string -> string, before: Chains)
    requires IsDigest(h) && Sound(h, before)
    ensures (forall now :: !Impostor(h, before, now)) <==> (forall id <- before :: Unambiguous(before[id]))
  {
    if forall id <- before :: Unambiguous(before[id]) {
      forall now ensures !Impostor(h, before, now) {
        if Impostor(h, before, now) { SameHistorySameStore(h, before, now); }
      }
    } else {
      var id :| id in before && !Unambiguous(before[id]);
      var row :| row in before[id] && !BarFree(row.event, row.payload);
      var i :| 0 <= i < |before[id]| && before[id][i] == row;
      var now := FindImpostor(h, before, id, i);
      assert Impostor(h, before, now);
    }
  }

  /** When a built anchor accepts: the key (if it was signed) gives the same signature,
      and the digests agree.  So it always accepts the heads it was built from. */
  lemma AcceptsExactly(h: string -> string, mac: (string, Document) -> string, was: seq<Head>, heads: seq<Head>,
                       key: string, key': string, createdAt: string)
    ensures var document := BuildDocument(h, mac, was, key, createdAt);
            VerifyDocument(h, mac, document, heads, key').Ok? <==>
            && (key != "" ==> key' != "" && mac(key', document.(signature := "")) == mac(key, document.(signature := "")))
            && Digest(h, was) == Digest(h, heads)
  {
    var document := BuildDocument(h, mac, was, key, createdAt);
    var bare := Document(ANCHOR_VERSION, createdAt, |was|, EventTotal(was), Digest(h, was), was, key != "", "");
    assert document.(signature := "") == bare;
  }

  lemma {:induction false} HeadMapOf(heads: seq<Head>)
    requires Ascending(heads)
    ensures forall x <- heads :: x.executionId in HeadMap(heads) && HeadMap(heads)[x.executionId] == x
    ensures forall id <- HeadMap(heads) :: HeadMap(heads)[id] in heads && HeadMap(heads)[id].executionId == id
  {
    if heads != [] {
      var init, last := heads[..|heads| - 1], heads[|heads| - 1];
      HeadMapOf(init);
      assert heads == init + [last];
      forall x | x in init ensures x.executionId != last.executionId { LessTotal(x.executionId, x.executionId); }
    }
  }

  lemma KeysOfHeadMap(chains: Chains, heads: seq<Head>)
    requires HeadsOf(chains, heads)
    ensures HeadMap(heads).Keys == chains.Keys
    ensures forall id <- chains :: HeadMap(heads)[id] == HeadOf(id, chains[id])
  {
    HeadMapOf(heads);
    forall id | id in chains ensures id in HeadMap(heads) && HeadMap(heads)[id] == HeadOf(id, chains[id]) {
      assert HeadOf(id, chains[id]) in heads;
    }
  }

  /** The chains of two stores whose heads differ. */
  function Rewritten(before: Chains, now: Chains): set<string> {
    set id | id in before && id in now && HeadOf(id, before[id]) != HeadOf(id, now[id])
  }

  lemma SameHeadsExactly(before: Chains, now: Chains, was: seq<Head>, heads: seq<Head>)
    requires HeadsOf(before, was) && HeadsOf(now, heads)
    ensures before.Keys == now.Keys && Rewritten(before, now) == {} <==> was == heads
  {
    if was == heads {
      SameHeadsSameIds(before, now, heads);
    } else if before.Keys == now.Keys && Rewritten(before, now) == {} {
      forall id | id in before ensures HeadOf(id, before[id]) == HeadOf(id, now[id]) {
        assert id !in Rewritten(before, now);
      }
      HeadsUnique(now, was, heads);
    }
  }

  lemma DiagnoseMaps(recorded: map<string, Head>, current: map<string, Head>, before: Chains, now: Chains)
    requires recorded.Keys == before.Keys && forall id <- before :: recorded[id] == HeadOf(id, before[id])
    requires current.Keys == now.Keys && forall id <- now :: current[id] == HeadOf(id, now[id])
    ensures Diagnose(recorded, current) ==
            HeadsChanged(now.Keys - before.Keys, before.Keys - now.Keys, Rewritten(before, now))
  {
  }

  lemma NothingNamed(before: Chains, now: Chains)
    ensures now.Keys - before.Keys == {} && before.Keys - now.Keys == {} <==> before.Keys == now.Keys
  {
    if now.Keys - before.Keys == {} && before.Keys - now.Keys == {} {
      forall id ensures id in before.Keys <==> id in now.Keys {
        assert id !in now.Keys - before.Keys && id !in before.Keys - now.Keys;
      }
    }
  }

  /** A rejected set of heads is explained: the three lists name exactly the new, the
      missing and the rewritten chains, and they are not all empty. */
  lemma MismatchIsNamed(before: Chains, now: Chains, was: seq<Head>, heads: seq<Head>)
    requires HeadsOf(before, was) && HeadsOf(now, heads)
    ensures Diagnose(HeadMap(was), HeadMap(heads)) ==
            HeadsChanged(now.Keys - before.Keys, before.Keys - now.Keys, Rewritten(before, now))
    ensures Diagnose(HeadMap(was), HeadMap(heads)) == HeadsChanged({}, {}, {}) <==> was == heads
  {
    KeysOfHeadMap(before, was);
    KeysOfHeadMap(now, heads);
    DiagnoseMaps(HeadMap(was), HeadMap(heads), before, now);
    SameHeadsExactly(before, now, was, heads);
    NothingNamed(before, now);
  }

  /** The answers that never look at the chains, for any document: which check speaks
      first, and on what. */
  lemma RefusedExactly(h: string -> string, mac: (string, Document) -> string, document: Document, heads: seq<Head>, key: string)
    ensures var answer := VerifyDocument(h, mac, document, heads, key);
            var current := document.version == "anchor-v1";
            var genuine := document.signature == mac(key, document.(signature := ""));
            && (answer == VersionMismatch <==> !current)
            && (answer == KeyMissing <==> current && document.signed && key == "")
            && (answer == SignatureMismatch <==> current && document.signed && key != "" && !genuine)
            && (answer.HeadsChanged? <==> current && (document.signed ==> key != "" && genuine) && Digest(h, heads) != document.digest)
  {
  }

  /** An anchor read with a key that reproduces its signature answers, when the digests
      differ, with the chains that are new, missing and rewritten since it was built. */
  lemma ChangesAreReported(h: string -> string, mac: (string, Document) -> string, before: Chains, now: Chains,
                           was: seq<Head>, heads: seq<Head>, key: string, key': string, createdAt: string)
    requires HeadsOf(before, was) && HeadsOf(now, heads) && Digest(h, was) != Digest(h, heads)
    requires var document := BuildDocument(h, mac, was, key, createdAt);
             key != "" ==> key' != "" && mac(key', document.(signature := "")) == document.signature
    ensures VerifyDocument(h, mac, BuildDocument(h, mac, was, key, createdAt), heads, key') ==
            HeadsChanged(now.Keys - before.Keys, before.Keys - now.Keys,
                         set id | id in before && id in now && HeadOf(id, before[id]) != HeadOf(id, now[id]))
  {
    MismatchIsNamed(before, now, was, heads);
  }

  /** The same for any document that holds the heads of a store, whatever its digest. */
  lemma AnyHeadsAreReported(h: string -> string, mac: (string, Document) -> string, before: Chains, now: Chains,
                            document: Document, heads: seq<Head>, key: string)
    requires HeadsOf(before, document.heads) && HeadsOf(now, heads)
    requires VerifyDocument(h, mac, document, heads, key).HeadsChanged?
    ensures VerifyDocument(h, mac, document, heads, key) ==
            HeadsChanged(now.Keys - before.Keys, before.Keys - now.Keys, Rewritten(before, now))
  {
    MismatchIsNamed(before, now, document.heads, heads);
  }

  function RowTotal(chains: Chains, ids: seq<string>): nat
    requires forall id <- ids :: id in chains
  {
    if ids == [] then 0 else RowTotal(chains, ids[..|ids| - 1]) + |chains[ids[|ids| - 1]]|
  }

  function IdsOf(heads: seq<Head>): seq<string> { seq(|heads|, i requires 0 <= i < |heads| => heads[i].executionId) }

  lemma {:induction false} EventsAreRows(chains: Chains, heads: seq<Head>)
    requires forall x <- heads :: x.executionId in chains && x == HeadOf(x.executionId, chains[x.executionId])
    ensures forall id <- IdsOf(heads) :: id in chains
    ensures EventTotal(heads) == RowTotal(chains, IdsOf(heads))
  {
    if heads != [] {
      var init := heads[..|heads| - 1];
      EventsAreRows(chains, init);
      assert IdsOf(heads)[..|heads| - 1] == IdsOf(init);
      assert heads[|heads| - 1] in heads;
    }
  }

  /** What a new anchor says of the store: the number of chains, of rows in all of them,
      the digest and the heads; and that it is signed exactly when there is a key. */
  lemma DocumentDescribes(h: string -> string, mac: (string, Document) -> string, chains: Chains, heads: seq<Head>,
                          key: string, createdAt: string)
    requires HeadsOf(chains, heads)
    ensures forall id <- IdsOf(heads) :: id in chains
    ensures var d := BuildDocument(h, mac, heads, key, createdAt);
            && d.version == "anchor-v1" && d.createdAt == createdAt && d.heads == heads && d.digest == Digest(h, heads)
            && d.chains == |heads| && d.events == RowTotal(chains, IdsOf(heads))
            && (d.signed <==> key != "") && (key != "" ==> d.signature == mac(key, d.(signature := "")))
  {
    EventsAreRows(chains, heads);
    var d := BuildDocument(h, mac, heads, key, createdAt);
    assert d.(signature := "") ==
           Document(ANCHOR_VERSION, createdAt, |heads|, EventTotal(heads), Digest(h, heads), heads, key != "", "");
  }
}
