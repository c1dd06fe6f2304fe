/** The configuration checks of a MetallbScan: is a service address part of a pool, and
    is that pool advertised. */
module IpPools {
  import opened StatusLists
  import opened GoStrings

  datatype Pool = Pool(name: string, addresses: seq<string>, labels: Option<map<string, string>>)

  // ----- address blocks

  /** An address and a prefix length. */
  datatype Block = Block(addr: nat, len: nat)

  function Pow2(n: nat): (p: nat)
    ensures p > 0
  {
    if n == 0 then 1 else 2 * Pow2(n - 1)
  }

  function Size(b: Block): (s: nat)
    ensures s > 0
  {
    if b.len <= 32 then Pow2(32 - b.len) else 1
  }

  /** The address with its host bits cleared. */
  function Network(addr: nat, size: nat): nat
    requires size > 0
  {
    addr / size * size
  }

  predicate InBlock(b: Block, ip: nat) {
    Network(ip, Size(b)) == Network(b.addr, Size(b))
  }

  lemma DivBounds(x: nat, size: nat)
    requires size > 0
    ensures x / size * size <= x < x / size * size + size
  {
    assert x == x / size * size + x % size;
  }

  lemma MulOrder(a: int, b: int, m: nat)
    requires a * m < b * m
    ensures a < b
  {
  }

  lemma SameQuotient(x: nat, size: nat, q: nat)
    requires size > 0 && q * size <= x < q * size + size
    ensures x / size == q
  {
    DivBounds(x, size);
    var p := x / size;
    assert (p + 1) * size == p * size + size && (q + 1) * size == q * size + size;
    MulOrder(p, q + 1, size);
    MulOrder(q, p + 1, size);
  }

  /** Section 3.1 of RFC 4632: a prefix stands for the 2^(32 - len) addresses that
      share its first bits. */
  lemma BlockIsInterval(b: Block, ip: nat)
    ensures InBlock(b, ip) <==> Network(b.addr, Size(b)) <= ip < Network(b.addr, Size(b)) + Size(b)
  {
    DivBounds(ip, Size(b));
    if Network(b.addr, Size(b)) <= ip < Network(b.addr, Size(b)) + Size(b) {
      SameQuotient(ip, Size(b), b.addr / Size(b));
    }
  }

  // ----- the two lists a look-up builds

  function Prefixed(name: string, parts: seq<string>): (r: seq<string>)
    ensures |r| == |parts| && forall i :: 0 <= i < |r| ==> r[i] == name + ":" + parts[i]
  {
    seq(|parts|, i requires 0 <= i < |parts| => name + ":" + parts[i])
  }

  /** The single addresses an address text stands for; of a range only its ends. */
  function SingleTexts(add: string): seq<string> {
    if add == "" || '/' in add then []
    else if '-' in add then Split(add, '-')
    else [add]
  }

  function BlockTexts(add: string): seq<string> {
    if '/' in add then [add] else []
  }

  function SinglesOf(name: string, adds: seq<string>): seq<string> {
    if adds == [] then []
    else SinglesOf(name, adds[..|adds| - 1]) + Prefixed(name, SingleTexts(adds[|adds| - 1]))
  }

  function BlocksOf(name: string, adds: seq<string>): seq<string> {
    if adds == [] then []
    else BlocksOf(name, adds[..|adds| - 1]) + Prefixed(name, BlockTexts(adds[|adds| - 1]))
  }

  function Singles(pools: seq<Pool>): seq<string> {
    if pools == [] then []
    else Singles(pools[..|pools| - 1]) + SinglesOf(pools[|pools| - 1].name, pools[|pools| - 1].addresses)
  }

  function Blocks(pools: seq<Pool>): seq<string> {
    if pools == [] then []
    else Blocks(pools[..|pools| - 1]) + BlocksOf(pools[|pools| - 1].name, pools[|pools| - 1].addresses)
  }

  // ----- the look-up

  datatype Lookup = Found(pool: string, text: string) | NotFound | NoPools | BadAddress | Panicked

  /** Field `k` of strings.Split(entry, ":"); every entry has two. */
  function Field(entry: string, k: nat): string
    requires k < 2
  {
    var f := Split(entry, ':');
    if k < |f| then f[k] else ""
  }

  function ExactFrom(singles: seq<string>, ip: string, i: nat): Option<Lookup>
    requires i <= |singles|
    decreases |singles| - i
  {
    if i == |singles| then None
    else if Field(singles[i], 1) == ip then Some(Found(Field(singles[i], 0), Field(singles[i], 1)))
    else ExactFrom(singles, ip, i + 1)
  }

  /** The simple form: each block is tested on its own. */
  function BlockFrom(blocks: seq<string>, ip: Option<nat>, parse: string -> Option<Block>, i: nat): Lookup
    requires i <= |blocks|
    decreases |blocks| - i
  {
    if i == |blocks| then NotFound
    else
      match parse(Field(blocks[i], 1))
      case None => Panicked
      case Some(b) =>
        if ip.None? then BadAddress
        else if InBlock(b, ip.value) then Found(Field(blocks[i], 0), Field(blocks[i], 1))
        else BlockFrom(blocks, ip, parse, i + 1)
  }

  function Resolve(pools: seq<Pool>, ip: string, parseIP: string -> Option<nat>,
                   parse: string -> Option<Block>): Lookup {
    var singles, blocks := Singles(pools), Blocks(pools);
    if singles == [] && blocks == [] then NoPools
    else
      match ExactFrom(singles, ip, 0)
      case Some(r) => r
      case None => BlockFrom(blocks, parseIP(ip), parse, 0)
  }

  /** The library's trie, as the networks inserted so far. */
  class Ranger {
    var nets: set<Block>

    constructor ()
      ensures nets == {}
    {
      nets := {};
    }

    method Insert(b: Block)
      modifies this
      ensures nets == old(nets) + {b}
    {
      nets := nets + {b};
    }

    method Contains(ip: nat) returns (r: bool)
      ensures r <==> exists b :: b in nets && InBlock(b, ip)
    {
      r := exists b | b in nets :: InBlock(b, ip);
    }
  }

  method AddPrefix(name: string, texts: seq<string>) returns (r: seq<string>)
    ensures r == Prefixed(name, texts)
  {
    r := [];
    for k := 0 to |texts|
      invariant r == Prefixed(name, texts)[..k]
    {
      r := r + [name + ":" + texts[k]];
    }
  }

  method CollectAddress(name: string, add: string) returns (singles: seq<string>, blocks: seq<string>)
    ensures singles == Prefixed(name, SingleTexts(add)) && blocks == Prefixed(name, BlockTexts(add))
  {
    singles, blocks := [], [];
    if add != "" {
      if '/' !in add {
        if '-' in add {
          singles := AddPrefix(name, Split(add, '-'));
        } else {
          singles := [name + ":" + add];
        }
      } else {
        blocks := [name + ":" + add];
      }
    }
  }

  method CollectPool(pool: Pool) returns (singles: seq<string>, blocks: seq<string>)
    ensures singles == SinglesOf(pool.name, pool.addresses) && blocks == BlocksOf(pool.name, pool.addresses)
  {
    singles, blocks := [], [];
    var adds := pool.addresses;
    for i := 0 to |adds|
      invariant singles == SinglesOf(pool.name, adds[..i]) && blocks == BlocksOf(pool.name, adds[..i])
    {
      assert adds[..i + 1][..i] == adds[..i];
      var s, b := CollectAddress(pool.name, adds[i]);
      singles, blocks := singles + s, blocks + b;
    }
    assert adds[..|adds|] == adds;
  }

  method CollectPools(pools: seq<Pool>) returns (singles: seq<string>, blocks: seq<string>)
    ensures singles == Singles(pools) && blocks == Blocks(pools)
  {
    singles, blocks := [], [];
    for i := 0 to |pools|
      invariant singles == Singles(pools[..i]) && blocks == Blocks(pools[..i])
    {
      assert pools[..i + 1][..i] == pools[..i];
      var s, b := CollectPool(pools[i]);
      singles, blocks := singles + s, blocks + b;
    }
    assert pools[..|pools|] == pools;
  }

  method FindExact(singles: seq<string>, ip: string) returns (r: Option<Lookup>)
    ensures r == ExactFrom(singles, ip, 0)
  {
    for i := 0 to |singles|
      invariant ExactFrom(singles, ip, 0) == ExactFrom(singles, ip, i)
    {
      if ip == Field(singles[i], 1) {
        return Some(Found(Field(singles[i], 0), Field(singles[i], 1)));
      }
    }
    return None;
  }

  /** Although the queried trie accumulates every earlier block, the answer is that of
      testing each block on its own. */
  method FindBlock(blocks: seq<string>, ip: Option<nat>, parse: string -> Option<Block>) returns (r: Lookup)
    ensures r == BlockFrom(blocks, ip, parse, 0)
  {
    var ranger := new Ranger();
    for i := 0 to |blocks|
      invariant BlockFrom(blocks, ip, parse, 0) == BlockFrom(blocks, ip, parse, i)
      invariant i > 0 ==> ip.Some?
      invariant ip.Some? ==> forall b :: b in ranger.nets ==> !InBlock(b, ip.value)
    {
      var net := parse(Field(blocks[i], 1));
      if net.None? {
        return Panicked;
      }
      ranger.Insert(net.value);
      if ip.None? {
        return BadAddress;
      }
      var contains := ranger.Contains(ip.value);
      if contains {
        return Found(Field(blocks[i], 0), Field(blocks[i], 1));
      }
    }
    return NotFound;
  }

  method CheckIpPool(pools: seq<Pool>, ip: string, parseIP: string -> Option<nat>, parse: string -> Option<Block>)
    returns (r: Lookup)
    ensures r == Resolve(pools, ip, parseIP, parse)
  {
    var singles, blocks := CollectPools(pools);
    if |blocks| < 1 && |singles| < 1 {
      return NoPools;
    }
    var exact := FindExact(singles, ip);
    if exact.Some? {
      return exact.value;
    }
    r := FindBlock(blocks, parseIP(ip), parse);
  }

  // ----- what the answer means

  predicate ColonFree(s: string) {
    ':' !in s
  }

  ghost predicate Plain(pools: seq<Pool>) {
    forall p :: p in pools ==> ColonFree(p.name) && forall a :: a in p.addresses ==> ColonFree(a)
  }

  /** An address text names the address itself or as the end of a range. */
  predicate NamesExactly(add: string, ip: string) {
    add != "" && '/' !in add && if '-' in add then ip in Split(add, '-') else ip == add
  }

  predicate CoversIp(add: string, ip: nat, parse: string -> Option<Block>) {
    '/' in add && parse(add).Some? && InBlock(parse(add).value, ip)
  }

  lemma EntryFields(name: string, text: string)
    requires ColonFree(name) && ColonFree(text)
    ensures Field(name + ":" + text, 0) == name && Field(name + ":" + text, 1) == text
  {
    SplitPrefix(name, text, ':');
  }

  lemma SplitFree(s: string, sep: char, c: char)
    requires c !in s
    ensures FreeOf(Split(s, sep), c)
  {
    if s != "" {
      assert s[0] in s && forall x :: x in s[1..] ==> x in s;
      SplitFree(s[1..], sep, c);
    }
  }

  // Where an entry comes from.

  ghost predicate SingleEntry(pools: seq<Pool>, e: string, p: Pool, a: string, t: string) {
    p in pools && a in p.addresses && t in SingleTexts(a) && e == p.name + ":" + t
  }

  ghost predicate BlockEntry(pools: seq<Pool>, e: string, p: Pool, a: string) {
    p in pools && a in p.addresses && '/' in a && e == p.name + ":" + a
  }

  lemma PrefixedMember(name: string, texts: seq<string>, e: string)
    ensures e in Prefixed(name, texts) <==> exists t :: t in texts && e == name + ":" + t
  {
    var r := Prefixed(name, texts);
    if e in r {
      var i :| 0 <= i < |r| && r[i] == e;
      assert texts[i] in texts;
    }
    if t :| t in texts && e == name + ":" + t {
      var i :| 0 <= i < |texts| && texts[i] == t;
      assert r[i] == e;
    }
  }

  lemma {:induction false} SinglesOfMember(name: string, adds: seq<string>, e: string)
    ensures e in SinglesOf(name, adds) <==> exists a, t :: a in adds && t in SingleTexts(a) && e == name + ":" + t
  {
    if adds != [] {
      var front, last := adds[..|adds| - 1], adds[|adds| - 1];
      assert adds == front + [last];
      SinglesOfMember(name, front, e);
      PrefixedMember(name, SingleTexts(last), e);
    }
  }

  lemma {:induction false} BlocksOfMember(name: string, adds: seq<string>, e: string)
    ensures e in BlocksOf(name, adds) <==> exists a :: a in adds && '/' in a && e == name + ":" + a
  {
    if adds != [] {
      var front, last := adds[..|adds| - 1], adds[|adds| - 1];
      assert adds == front + [last];
      BlocksOfMember(name, front, e);
      PrefixedMember(name, BlockTexts(last), e);
    }
  }

  lemma {:induction false} EntriesFromPools(pools: seq<Pool>, e: string)
    ensures e in Singles(pools) <==> exists p, a, t :: SingleEntry(pools, e, p, a, t)
    ensures e in Blocks(pools) <==> exists p, a :: BlockEntry(pools, e, p, a)
  {
    if pools != [] {
      var front, last := pools[..|pools| - 1], pools[|pools| - 1];
      assert pools == front + [last];
      EntriesFromPools(front, e);
      SinglesOfMember(last.name, last.addresses, e);
      BlocksOfMember(last.name, last.addresses, e);
      if e in Singles(front) {
        var p, a, t :| SingleEntry(front, e, p, a, t);
        assert SingleEntry(pools, e, p, a, t);
      } else if e in Singles(pools) {
        var a, t :| a in last.addresses && t in SingleTexts(a) && e == last.name + ":" + t;
        assert SingleEntry(pools, e, last, a, t);
      }
      if e in Blocks(front) {
        var p, a :| BlockEntry(front, e, p, a);
        assert BlockEntry(pools, e, p, a);
      } else if e in Blocks(pools) {
        var a :| a in last.addresses && '/' in a && e == last.name + ":" + a;
        assert BlockEntry(pools, e, last, a);
      }
      if p, a, t :| SingleEntry(pools, e, p, a, t) {
        if p in front { assert SingleEntry(front, e, p, a, t); }
      }
      if p, a :| BlockEntry(pools, e, p, a) {
        if p in front { assert BlockEntry(front, e, p, a); }
      }
    }
  }

  lemma {:induction false} ExactFromMeaning(singles: seq<string>, ip: string, i: nat) returns (k: nat)
    requires i <= |singles|
    ensures i <= k <= |singles| && forall j :: i <= j < k ==> Field(singles[j], 1) != ip
    ensures k == |singles| ==> ExactFrom(singles, ip, i) == None
    ensures k < |singles| ==>
              Field(singles[k], 1) == ip && ExactFrom(singles, ip, i) == Some(Found(Field(singles[k], 0), ip))
    decreases |singles| - i
  {
    if i < |singles| && Field(singles[i], 1) != ip {
      k := ExactFromMeaning(singles, ip, i + 1);
    } else {
      k := i;
    }
  }

  /** The block entry covers the address. */
  predicate EntryCovers(entry: string, ip: nat, parse: string -> Option<Block>) {
    parse(Field(entry, 1)).Some? && InBlock(parse(Field(entry, 1)).value, ip)
  }

  lemma {:induction false} BlockFromMeaning(blocks: seq<string>, ip: nat, parse: string -> Option<Block>, i: nat)
    returns (k: nat)
    requires i <= |blocks| && forall j :: i <= j < |blocks| ==> parse(Field(blocks[j], 1)).Some?
    ensures i <= k <= |blocks| && forall j :: i <= j < k ==> !EntryCovers(blocks[j], ip, parse)
    ensures k == |blocks| ==> BlockFrom(blocks, Some(ip), parse, i) == NotFound
    ensures k < |blocks| ==> EntryCovers(blocks[k], ip, parse) &&
                             BlockFrom(blocks, Some(ip), parse, i) == Found(Field(blocks[k], 0), Field(blocks[k], 1))
    decreases |blocks| - i
  {
    if i < |blocks| && !EntryCovers(blocks[i], ip, parse) {
      k := BlockFromMeaning(blocks, ip, parse, i + 1);
    } else {
      k := i;
    }
  }

  ghost predicate Listed(pools: seq<Pool>, ip: string) {
    exists p, a :: p in pools && a in p.addresses && NamesExactly(a, ip)
  }

  ghost predicate Covered(pools: seq<Pool>, ip: nat, parse: string -> Option<Block>) {
    exists p, a :: p in pools && a in p.addresses && CoversIp(a, ip, parse)
  }

  lemma SingleEntryFields(pools: seq<Pool>, e: string, p: Pool, a: string, t: string)
    requires Plain(pools) && SingleEntry(pools, e, p, a, t)
    ensures Field(e, 0) == p.name && Field(e, 1) == t
  {
    SplitFree(a, '-', ':');
    EntryFields(p.name, t);
  }

  lemma ExactIffListed(pools: seq<Pool>, ip: string)
    requires Plain(pools)
    ensures ExactFrom(Singles(pools), ip, 0).Some? <==> Listed(pools, ip)
  {
    var singles := Singles(pools);
    var first := ExactFromMeaning(singles, ip, 0);
    if ExactFrom(singles, ip, 0).Some? {
      var k :| 0 <= k < |singles| && Field(singles[k], 1) == ip;
      EntriesFromPools(pools, singles[k]);
      var p, a, t :| SingleEntry(pools, singles[k], p, a, t);
      SingleEntryFields(pools, singles[k], p, a, t);
      assert NamesExactly(a, ip);
    }
    if Listed(pools, ip) {
      var p, a :| p in pools && a in p.addresses && NamesExactly(a, ip);
      var e := p.name + ":" + ip;
      assert SingleEntry(pools, e, p, a, ip);
      EntriesFromPools(pools, e);
      SingleEntryFields(pools, e, p, a, ip);
      var k :| 0 <= k < |singles| && singles[k] == e;
      assert Field(singles[k], 1) == ip;
    }
  }

  ghost predicate Parsable(pools: seq<Pool>, parse: string -> Option<Block>) {
    forall p, a :: p in pools && a in p.addresses && '/' in a ==> parse(a).Some?
  }

  lemma BlockEntriesParse(pools: seq<Pool>, parse: string -> Option<Block>, k: nat)
    requires Plain(pools) && Parsable(pools, parse) && k < |Blocks(pools)|
    ensures parse(Field(Blocks(pools)[k], 1)).Some?
  {
    var e := Blocks(pools)[k];
    EntriesFromPools(pools, e);
    var p, a :| BlockEntry(pools, e, p, a);
    EntryFields(p.name, a);
  }

  lemma CoveredFromEntry(pools: seq<Pool>, k: nat, x: nat, parse: string -> Option<Block>)
    requires Plain(pools) && k < |Blocks(pools)| && EntryCovers(Blocks(pools)[k], x, parse)
    ensures exists p, a :: p in pools && a in p.addresses && CoversIp(a, x, parse) &&
              p.name == Field(Blocks(pools)[k], 0) && a == Field(Blocks(pools)[k], 1)
  {
    var e := Blocks(pools)[k];
    EntriesFromPools(pools, e);
    var p, a :| BlockEntry(pools, e, p, a);
    EntryFields(p.name, a);
    assert CoversIp(a, x, parse);
  }

  lemma EntryFromCovered(pools: seq<Pool>, x: nat, parse: string -> Option<Block>) returns (k: nat)
    requires Plain(pools) && Covered(pools, x, parse)
    ensures k < |Blocks(pools)| && EntryCovers(Blocks(pools)[k], x, parse)
  {
    var p, a :| p in pools && a in p.addresses && CoversIp(a, x, parse);
    var e := p.name + ":" + a;
    assert BlockEntry(pools, e, p, a);
    EntriesFromPools(pools, e);
    EntryFields(p.name, a);
    k :| 0 <= k < |Blocks(pools)| && Blocks(pools)[k] == e;
  }

  ghost predicate NamesBlock(pools: seq<Pool>, x: nat, parse: string -> Option<Block>, name: string, text: string) {
    exists p :: p in pools && text in p.addresses && p.name == name && CoversIp(text, x, parse)
  }

  lemma BlocksIffCovered(pools: seq<Pool>, x: nat, parse: string -> Option<Block>)
    requires Plain(pools) && Parsable(pools, parse)
    ensures var r := BlockFrom(Blocks(pools), Some(x), parse, 0);
            if Covered(pools, x, parse) then r.Found? && NamesBlock(pools, x, parse, r.pool, r.text) else r == NotFound
  {
    var blocks := Blocks(pools);
    forall k | 0 <= k < |blocks| ensures parse(Field(blocks[k], 1)).Some? {
      BlockEntriesParse(pools, parse, k);
    }
    var first := BlockFromMeaning(blocks, x, parse, 0);
    var r := BlockFrom(blocks, Some(x), parse, 0);
    if r == NotFound {
      if Covered(pools, x, parse) { var k := EntryFromCovered(pools, x, parse); }
    } else {
      CoveredFromEntry(pools, first, x, parse);
    }
  }

  lemma ExactNames(pools: seq<Pool>, ip: string)
    requires Plain(pools) && ExactFrom(Singles(pools), ip, 0).Some?
    ensures var r := ExactFrom(Singles(pools), ip, 0).value;
            r.Found? && r.text == ip &&
              exists p, a :: p in pools && a in p.addresses && p.name == r.pool && NamesExactly(a, ip)
  {
    var singles := Singles(pools);
    var first := ExactFromMeaning(singles, ip, 0);
    var k := first;
    EntriesFromPools(pools, singles[k]);
    var p, a, t :| SingleEntry(pools, singles[k], p, a, t);
    SingleEntryFields(pools, singles[k], p, a, t);
    assert p in pools && a in p.addresses && NamesExactly(a, ip);
  }

  /** The look-up finds a service address iff a pool lists it as a single address or as
      the end of a range, or lists a block it lies in, and it names such a pool, an
      exact entry before any block. */
  lemma LookupFinds(pools: seq<Pool>, ip: string, x: nat, parseIP: string -> Option<nat>,
                    parse: string -> Option<Block>)
    requires Plain(pools) && Parsable(pools, parse) && parseIP(ip) == Some(x)
    ensures var r := Resolve(pools, ip, parseIP, parse);
            && (r.Found? <==> Listed(pools, ip) || Covered(pools, x, parse))
            && (!r.Found? ==> r in {NotFound, NoPools})
            && (Listed(pools, ip) ==> r.text == ip && exists p, a ::
                  p in pools && a in p.addresses && p.name == r.pool && NamesExactly(a, ip))
            && (!Listed(pools, ip) && Covered(pools, x, parse) ==> NamesBlock(pools, x, parse, r.pool, r.text))
  {
    ExactIffListed(pools, ip);
    BlocksIffCovered(pools, x, parse);
    if Listed(pools, ip) { ExactNames(pools, ip); }
    if Covered(pools, x, parse) { var k := EntryFromCovered(pools, x, parse); }
  }

  /** The address is listed in a pool, alone or as the end of a range, or lies in a block. */
  ghost predicate InPool(pools: seq<Pool>, ip: string, parseIP: string -> Option<nat>,
                         parse: string -> Option<Block>) {
    Listed(pools, ip) || (parseIP(ip).Some? && Covered(pools, parseIP(ip).value, parse))
  }

  /** A listed pool has the name and holds the address by this text of its own. */
  ghost predicate PoolEntry(pools: seq<Pool>, name: string, text: string, ip: string, parseIP: string -> Option<nat>,
                            parse: string -> Option<Block>) {
    exists p, a :: p in pools && a in p.addresses && p.name == name &&
      ((text == ip && NamesExactly(a, ip)) || (text == a && parseIP(ip).Some? && CoversIp(a, parseIP(ip).value, parse)))
  }

  predicate Answered(l: Lookup) {
    l.Found? || l.NotFound?
  }

  lemma {:induction false} BlockFromAnswered(blocks: seq<string>, ip: Option<nat>, parse: string -> Option<Block>,
                                             i: nat)
    requires i <= |blocks| && Answered(BlockFrom(blocks, ip, parse, i))
    ensures var r := BlockFrom(blocks, ip, parse, i);
            if r.Found? then
              ip.Some? && exists k :: i <= k < |blocks| && EntryCovers(blocks[k], ip.value, parse) &&
                            r == Found(Field(blocks[k], 0), Field(blocks[k], 1))
            else forall k :: i <= k < |blocks| ==> ip.Some? && !EntryCovers(blocks[k], ip.value, parse)
    decreases |blocks| - i
  {
    if i < |blocks| && !(ip.Some? && EntryCovers(blocks[i], ip.value, parse)) {
      BlockFromAnswered(blocks, ip, parse, i + 1);
    }
  }

  /** Whatever parses and whatever does not: a look-up that is answered finds the address
      iff it is in a pool, and names an entry that holds it. */
  lemma AnsweredLookup(pools: seq<Pool>, ip: string, parseIP: string -> Option<nat>, parse: string -> Option<Block>)
    requires Plain(pools) && Answered(Resolve(pools, ip, parseIP, parse))
    ensures var r := Resolve(pools, ip, parseIP, parse);
            && (r.Found? <==> InPool(pools, ip, parseIP, parse))
            && (r.Found? ==> PoolEntry(pools, r.pool, r.text, ip, parseIP, parse))
  {
    ExactIffListed(pools, ip);
    if Listed(pools, ip) {
      ListedEntry(pools, ip, parseIP, parse);
    } else {
      AnsweredBlock(pools, ip, parseIP, parse);
    }
  }

  lemma ListedEntry(pools: seq<Pool>, ip: string, parseIP: string -> Option<nat>, parse: string -> Option<Block>)
    requires Plain(pools) && ExactFrom(Singles(pools), ip, 0).Some?
    ensures var r := ExactFrom(Singles(pools), ip, 0).value;
            r.Found? && PoolEntry(pools, r.pool, r.text, ip, parseIP, parse)
  {
    ExactNames(pools, ip);
    var r := ExactFrom(Singles(pools), ip, 0).value;
    var p, a :| p in pools && a in p.addresses && p.name == r.pool && NamesExactly(a, ip);
    ExactEntry(pools, p, a, ip, parseIP, parse);
  }

  lemma ExactEntry(pools: seq<Pool>, p: Pool, a: string, ip: string, parseIP: string -> Option<nat>,
                   parse: string -> Option<Block>)
    requires p in pools && a in p.addresses && NamesExactly(a, ip)
    ensures PoolEntry(pools, p.name, ip, ip, parseIP, parse)
  {
  }

  lemma AnsweredBlock(pools: seq<Pool>, ip: string, parseIP: string -> Option<nat>, parse: string -> Option<Block>)
    requires Plain(pools) && !Listed(pools, ip) && Answered(BlockFrom(Blocks(pools), parseIP(ip), parse, 0))
    ensures var r := BlockFrom(Blocks(pools), parseIP(ip), parse, 0);
            && (r.Found? <==> InPool(pools, ip, parseIP, parse))
            && (r.Found? ==> PoolEntry(pools, r.pool, r.text, ip, parseIP, parse))
  {
    var blocks, r := Blocks(pools), BlockFrom(Blocks(pools), parseIP(ip), parse, 0);
    BlockFromAnswered(blocks, parseIP(ip), parse, 0);
    if r.Found? {
      var x := parseIP(ip).value;
      var k :| 0 <= k < |blocks| && EntryCovers(blocks[k], x, parse)
               && r == Found(Field(blocks[k], 0), Field(blocks[k], 1));
      CoveredFromEntry(pools, k, x, parse);
    } else if parseIP(ip).Some? && Covered(pools, parseIP(ip).value, parse) {
      var k := EntryFromCovered(pools, parseIP(ip).value, parse);
      assert false;
    }
  }

  /** `r` names the first of the entries that hold `ip` exactly. */
  ghost predicate NamesFirstExact(singles: seq<string>, ip: string, r: Lookup) {
    exists k :: 0 <= k < |singles| && Field(singles[k], 1) == ip && r == Found(Field(singles[k], 0), ip) &&
                forall j :: 0 <= j < k ==> Field(singles[j], 1) != ip
  }

  /** `r` names the first of the blocks that contain the address. */
  ghost predicate NamesFirstBlock(blocks: seq<string>, x: nat, parse: string -> Option<Block>, r: Lookup) {
    exists k :: 0 <= k < |blocks| && EntryCovers(blocks[k], x, parse) &&
                r == Found(Field(blocks[k], 0), Field(blocks[k], 1)) &&
                forall j :: 0 <= j < k ==> !EntryCovers(blocks[j], x, parse)
  }

  /** The look-up names the first exact entry; if there is none, the first block that
      contains the address. */
  lemma FirstEntryNamed(pools: seq<Pool>, ip: string, x: nat, parseIP: string -> Option<nat>,
                        parse: string -> Option<Block>)
    requires Plain(pools) && Parsable(pools, parse) && parseIP(ip) == Some(x)
    ensures Listed(pools, ip) ==> NamesFirstExact(Singles(pools), ip, Resolve(pools, ip, parseIP, parse))
    ensures !Listed(pools, ip) && Covered(pools, x, parse) ==>
              NamesFirstBlock(Blocks(pools), x, parse, Resolve(pools, ip, parseIP, parse))
  {
    ExactIffListed(pools, ip);
    var first := ExactFromMeaning(Singles(pools), ip, 0);
    if !Listed(pools, ip) && Covered(pools, x, parse) { FirstBlockNamed(pools, x, parse); }
  }

  lemma FirstBlockNamed(pools: seq<Pool>, x: nat, parse: string -> Option<Block>)
    requires Plain(pools) && Parsable(pools, parse) && Covered(pools, x, parse)
    ensures Blocks(pools) != [] && NamesFirstBlock(Blocks(pools), x, parse, BlockFrom(Blocks(pools), Some(x), parse, 0))
  {
    var blocks := Blocks(pools);
    forall k | 0 <= k < |blocks| ensures parse(Field(blocks[k], 1)).Some? { BlockEntriesParse(pools, parse, k); }
    var first := BlockFromMeaning(blocks, x, parse, 0);
    var c := EntryFromCovered(pools, x, parse);
    assert EntryCovers(blocks[c], x, parse);
  }

  /** An address strictly inside a range is not found: only the ends are compared. */
  lemma RangeInteriorMissed(name: string, lo: string, hi: string, ip: string, x: nat,
                            parseIP: string -> Option<nat>, parse: string -> Option<Block>)
    requires ColonFree(name) && FreeOf([lo, hi], ':') && FreeOf([lo, hi], '-') && FreeOf([lo, hi], '/')
    requires parseIP(ip) == Some(x) && ip != lo && ip != hi
    ensures !Resolve([Pool(name, [lo + "-" + hi], None)], ip, parseIP, parse).Found?
  {
    var add := lo + "-" + hi;
    var pools := [Pool(name, [add], None)];
    assert lo in [lo, hi] && hi in [lo, hi];
    assert '/' !in add && ':' !in add && add[|lo|] == '-';
    SplitPrefix(lo, hi, '-');
    assert Split(add, '-') == [lo, hi];
    LookupFinds(pools, ip, x, parseIP, parse);
  }
}
