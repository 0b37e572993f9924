/** The line-based files of the durable store: block index, UTXO snapshot and manifest, written and read back
    (src/storage.cpp). */
module StoreFormats {
  import opened Amounts
  import opened Errors
  import opened Transactions
  import opened Serialize
  import opened Utxo
  import opened UtxoRules
  import opened Texts
  import opened RecordLog

  const INDEX_MAGIC := "BINARYCOIN_BLOCK_INDEX_V1"
  const UTXO_MAGIC := "BINARYCOIN_UTXO_SNAPSHOT_V1"
  const MANIFEST_MAGIC := "BINARYCOIN_CHAINSTATE_MANIFEST_V1"

  /** SHA-256 of a file's text, left uninterpreted. */
  const TextDigest: string -> Hash256

  // ---------------------------------------------------------------- block index

  function IndexLine(entry: IndexEntry): string {
    Join([Decimal(entry.height), Decimal(entry.offset), Decimal(entry.payloadSize), entry.hash], '\t')
  }

  function IndexLines(entries: seq<IndexEntry>): (lines: seq<string>)
    ensures |lines| == |entries|
  {
    if entries == [] then [] else [IndexLine(entries[0])] + IndexLines(entries[1..])
  }

  function IndexText(entries: seq<IndexEntry>): string {
    FromLines([INDEX_MAGIC] + IndexLines(entries))
  }

  function ParseIndexLine(line: string, position: nat): Result<IndexEntry> {
    var fields := Split(line, '\t');
    if |fields| != 4 then Err(BadFormat) else
    var height :- ParseUnsigned(fields[0], TWO_64);
    var offset :- ParseUnsigned(fields[1], TWO_64);
    var size :- ParseUnsigned(fields[2], TWO_64);
    if size > MAX_RECORD_SIZE || height != position || height >= TWO_64 || offset >= TWO_64 then Err(BadFormat)
    else Ok(IndexEntry(height, offset, size, fields[3]))
  }

  /** Reading further lines behind the entries read so far. */
  function ParseIndexFrom(lines: seq<string>, entries: seq<IndexEntry>): Result<seq<IndexEntry>>
    decreases |lines|
  {
    if lines == [] then Ok(entries)
    else if lines[0] == "" then ParseIndexFrom(lines[1..], entries)
    else
      var entry :- ParseIndexLine(lines[0], |entries|);
      ParseIndexFrom(lines[1..], entries + [entry])
  }

  function ParseIndex(text: string): Result<seq<IndexEntry>> {
    var lines := Lines(text);
    if lines == [] || lines[0] != INDEX_MAGIC then Err(BadFormat) else
    var entries :- ParseIndexFrom(lines[1..], []);
    if entries == [] then Err(BadFormat) else Ok(entries)
  }

  method MakeIndexText(entries: seq<IndexEntry>) returns (text: string)
    ensures text == IndexText(entries)
  {
    hide IndexLine;
    text := INDEX_MAGIC + "\n";
    for i := 0 to |entries|
      invariant text + FromLines(IndexLines(entries[i..])) == IndexText(entries)
    {
      var (line, rest) := (IndexLine(entries[i]), entries[i + 1..]);
      assert entries[i..] == [entries[i]] + rest;
      assert IndexLines(entries[i..]) == [line] + IndexLines(rest);
      FromLinesNext(text, line, IndexLines(rest));
      text := text + line + "\n";
    }
    assert text + "" == text;
  }

  lemma {:induction false} FromLinesNext(front: string, line: string, rest: seq<string>)
    ensures front + FromLines([line] + rest) == front + line + "\n" + FromLines(rest)
  {
    assert ([line] + rest)[1..] == rest;
  }

  method ParseIndexText(text: string) returns (r: Result<seq<IndexEntry>>)
    ensures r == ParseIndex(text)
  {
    hide ParseIndexLine, Lines;
    var lines := Lines(text);
    if |lines| == 0 || lines[0] != INDEX_MAGIC {
      return Err(BadFormat);
    }
    var entries: seq<IndexEntry> := [];
    for i := 1 to |lines|
      invariant ParseIndexFrom(lines[i..], entries) == ParseIndexFrom(lines[1..], [])
    {
      assert lines[i..][1..] == lines[i + 1..];
      if lines[i] != "" {
        var entry :- ParseIndexLine(lines[i], |entries|);
        entries := entries + [entry];
      }
    }
    return if |entries| == 0 then Err(BadFormat) else Ok(entries);
  }

  /** What an index of a chain looks like: one entry per height, a proper payload size, a hash in text form. */
  ghost predicate IndexWellFormed(entries: seq<IndexEntry>) {
    forall i :: 0 <= i < |entries| ==>
      entries[i].height == i && entries[i].offset < TWO_64 && entries[i].payloadSize <= MAX_RECORD_SIZE
      && IsHash(entries[i].hash)
  }

  ghost predicate IsHash(s: string) {
    |s| == 64 && forall i :: 0 <= i < |s| ==> IsHexDigit(s[i])
  }

  lemma {:induction false} NotAmong(s: string, c: char)
    requires !IsHexDigit(c) && forall i :: 0 <= i < |s| ==> IsHexDigit(s[i])
    ensures c !in s
  {
  }

  /** Decimal text holds neither separators nor line ends. */
  lemma {:induction false} DecimalPlain(n: nat, c: char)
    requires !IsHexDigit(c)
    ensures c !in Decimal(n) && c !in Padded(Decimal(n))
    ensures c != '-' ==> c !in SignedDecimal(n)
    ensures c != '-' && n > 0 ==> c !in SignedDecimal(0 - n)
  {
    DecimalRoundTrip(n);
    forall i | 0 <= i < |Decimal(n)|
      ensures IsHexDigit(Decimal(n)[i])
    {
      assert IsDigit(Decimal(n)[i]);
    }
    NotAmong(Decimal(n), c);
  }

  lemma {:induction false} IndexLineRoundTrip(entry: IndexEntry)
    requires entry.offset < TWO_64 && entry.payloadSize <= MAX_RECORD_SIZE && IsHash(entry.hash)
    ensures ParseIndexLine(IndexLine(entry), entry.height) == Ok(entry)
    ensures '\n' !in IndexLine(entry) && IndexLine(entry) != ""
  {
    hide Join, Split, Decimal, ParseUnsigned;
    var fields := [Decimal(entry.height), Decimal(entry.offset), Decimal(entry.payloadSize), entry.hash];
    DecimalPlain(entry.height, '\t');
    DecimalPlain(entry.offset, '\t');
    DecimalPlain(entry.payloadSize, '\t');
    NotAmong(entry.hash, '\t');
    SplitRoundTrip(fields, '\t');
    DecimalPlain(entry.height, '\n');
    DecimalPlain(entry.offset, '\n');
    DecimalPlain(entry.payloadSize, '\n');
    NotAmong(entry.hash, '\n');
    JoinFree(fields, '\t', '\n');
    JoinLonger(fields, '\t');
    UnsignedRoundTrip(entry.height, TWO_64);
    UnsignedRoundTrip(entry.offset, TWO_64);
    UnsignedRoundTrip(entry.payloadSize, TWO_64);
  }

  lemma {:induction false} JoinLonger(fields: seq<string>, separator: char)
    requires |fields| > 1
    ensures Join(fields, separator) != ""
  {
    assert Join(fields, separator)[|fields[0]|] == separator;
  }

  lemma {:induction false} IndexLinesRoundTrip(entries: seq<IndexEntry>, k: nat)
    requires IndexWellFormed(entries) && k <= |entries|
    ensures ParseIndexFrom(IndexLines(entries[k..]), entries[..k]) == Ok(entries)
    ensures Free(IndexLines(entries[k..]), '\n')
    decreases |entries| - k
  {
    hide IndexLine, ParseIndexLine, IsHash;
    if k == |entries| {
      assert entries[..k] == entries;
    } else {
      var entry := entries[k];
      IndexLineRoundTrip(entry);
      IndexLinesRoundTrip(entries, k + 1);
      assert entries[k..] == [entry] + entries[k + 1..];
      assert IndexLines(entries[k..])[1..] == IndexLines(entries[k + 1..]);
      assert entries[..k] + [entry] == entries[..k + 1];
    }
  }

  /** An index of a non-empty chain reads back as it was written. */
  lemma {:induction false} IndexRoundTrip(entries: seq<IndexEntry>)
    requires IndexWellFormed(entries) && |entries| > 0
    ensures ParseIndex(IndexText(entries)) == Ok(entries)
  {
    hide ParseIndexFrom, IndexLines, FromLines, Lines, IsHash;
    var lines := [INDEX_MAGIC] + IndexLines(entries);
    IndexLinesRoundTrip(entries, 0);
    assert entries[0..] == entries && entries[..0] == [];
    assert lines[1..] == IndexLines(entries);
    LinesRoundTrip(lines);
  }

  // ---------------------------------------------------------------- UTXO snapshot

  /** The order of outpoints in the map: by transaction text, then by index. */
  predicate Before(a: OutPoint, b: OutPoint) {
    a.txid < b.txid || (a.txid == b.txid && a.index < b.index)
  }

  predicate Least(o: OutPoint, coins: Utxos) {
    o in coins && forall p :: p in coins.Keys ==> p == o || Before(o, p)
  }

  lemma {:induction false} LeastExists(coins: Utxos)
    requires coins != map[]
    ensures exists o :: Least(o, coins)
    decreases |coins|
  {
    var p :| p in coins;
    var rest := coins - {p};
    if rest == map[] {
      assert coins.Keys == rest.Keys + {p};
      assert Least(p, coins);
    } else {
      LeastExists(rest);
      var o :| Least(o, rest);
      assert Least(if Before(p, o) then p else o, coins) by {
        assert forall q :: q in coins.Keys ==> q == p || q in rest.Keys;
      }
    }
  }

  function UtxoLine(o: OutPoint, coin: Coin): string {
    Join([HashText(o.txid), Decimal(o.index), SignedDecimal(coin.output.value), Decimal(coin.height),
          if coin.coinbase then "1" else "0", BytesHex(coin.output.scriptPubKey)], '\t')
  }

  /** The lines of the map in its order. */
  ghost function UtxoLines(coins: Utxos): seq<string>
    decreases |coins|
  {
    if coins == map[] then [] else
    LeastExists(coins);
    var o :| Least(o, coins);
    [UtxoLine(o, coins[o])] + UtxoLines(coins - {o})
  }

  function HeaderLines(height: nat, bestBlock: string): seq<string> {
    [UTXO_MAGIC, "height=" + Decimal(height), "bestblock=" + bestBlock]
  }

  ghost function UtxoText(coins: Utxos, height: nat, bestBlock: string): string {
    FromLines(HeaderLines(height, bestBlock) + UtxoLines(coins))
  }

  function ParseUtxoLine(line: string): Result<(OutPoint, Coin)> {
    var fields := Split(line, '\t');
    if |fields| != 6 then Err(BadFormat) else
    var txid :- ParseHash(fields[0]);
    var index :- ParseUnsigned(fields[1], TWO_32);
    var value :- ParseSigned(fields[2]);
    var script :- ParseBytes(fields[5]);
    var height :- ParseUnsigned(fields[3], TWO_64);
    if !MoneyRange(value) || (fields[4] != "0" && fields[4] != "1") || index >= TWO_32 then Err(BadFormat)
    else Ok((OutPoint(txid, index), Coin(TxOutput(value, script), height, fields[4] == "1")))
  }

  /** Reading further lines on top of the coins read so far. */
  function ParseCoinsFrom(lines: seq<string>, coins: Utxos): Result<Utxos>
    decreases |lines|
  {
    if lines == [] then Ok(coins)
    else if lines[0] == "" then ParseCoinsFrom(lines[1..], coins)
    else
      var (o, coin) :- ParseUtxoLine(lines[0]);
      if o in coins then Err(BadFormat) else ParseCoinsFrom(lines[1..], coins[o := coin])
  }

  predicate StartsWith(text: string, prefix: string) {
    prefix <= text
  }

  function ParseUtxos(text: string, height: nat, bestBlock: string): Result<Utxos> {
    var lines := Lines(text);
    if |lines| < 3 || lines[0] != UTXO_MAGIC || !StartsWith(lines[1], "height=") then Err(BadFormat) else
    var h :- ParseUnsigned(lines[1][7..], TWO_64);
    if !StartsWith(lines[2], "bestblock=") then Err(BadFormat)
    else if h != height || lines[2][10..] != bestBlock then Err(SnapshotMismatch)
    else ParseCoinsFrom(lines[3..], map[])
  }

  method MakeUtxoText(coins: Utxos, height: nat, bestBlock: string) returns (text: string)
    ensures text == UtxoText(coins, height, bestBlock)
  {
    hide UtxoLine;
    text := UTXO_MAGIC + "\n" + ("height=" + Decimal(height)) + "\n" + ("bestblock=" + bestBlock) + "\n";
    ThreeLines(UTXO_MAGIC, "height=" + Decimal(height), "bestblock=" + bestBlock, UtxoLines(coins));
    var left := coins;
    while |left| > 0
      invariant text + FromLines(UtxoLines(left)) == UtxoText(coins, height, bestBlock)
      decreases |left|
    {
      LeastExists(left);
      var o :| o in left && Least(o, left);
      LeastUnique(left);
      FromLinesNext(text, UtxoLine(o, left[o]), UtxoLines(left - {o}));
      text := text + UtxoLine(o, left[o]) + "\n";
      left := left - {o};
    }
    assert text + "" == text;
  }

  lemma {:induction false} ThreeLines(a: string, b: string, c: string, rest: seq<string>)
    ensures FromLines([a, b, c] + rest) == a + "\n" + b + "\n" + c + "\n" + FromLines(rest)
  {
    assert [a, b, c] + rest == [a] + ([b] + ([c] + rest));
    FromLinesNext("", a, [b] + ([c] + rest));
    FromLinesNext(a + "\n", b, [c] + rest);
    FromLinesNext(a + "\n" + b + "\n", c, rest);
  }

  lemma {:induction false} LeastUnique(coins: Utxos)
    ensures forall a, b :: Least(a, coins) && Least(b, coins) ==> a == b
  {
  }

  method ParseUtxoText(text: string, height: nat, bestBlock: string) returns (r: Result<Utxos>)
    ensures r == ParseUtxos(text, height, bestBlock)
  {
    hide ParseUtxoLine, Lines;
    var lines := Lines(text);
    if |lines| < 3 || lines[0] != UTXO_MAGIC || !StartsWith(lines[1], "height=") {
      return Err(BadFormat);
    }
    var h :- ParseUnsigned(lines[1][7..], TWO_64);
    if !StartsWith(lines[2], "bestblock=") {
      return Err(BadFormat);
    }
    if h != height || lines[2][10..] != bestBlock {
      return Err(SnapshotMismatch);
    }
    var coins: Utxos := map[];
    for i := 3 to |lines|
      invariant ParseCoinsFrom(lines[i..], coins) == ParseCoinsFrom(lines[3..], map[])
    {
      assert lines[i..][1..] == lines[i + 1..];
      if lines[i] != "" {
        var parsed :- ParseUtxoLine(lines[i]);
        var (o, coin) := parsed;
        if o in coins {
          return Err(BadFormat);
        }
        coins := coins[o := coin];
      }
    }
    return Ok(coins);
  }

  /** Coins that a snapshot can hold: amounts in the money range and 64-bit heights. */
  ghost predicate CoinsFit(coins: Utxos) {
    CoinsInRange(coins) && forall o :: o in coins ==> coins[o].height < TWO_64
  }

  lemma {:induction false} UtxoLinePlain(o: OutPoint, coin: Coin, c: char)
    requires !IsHexDigit(c) && c != '-'
    ensures c !in HashText(o.txid) && c !in Decimal(o.index) && c !in SignedDecimal(coin.output.value)
    ensures c !in Decimal(coin.height) && c !in BytesHex(coin.output.scriptPubKey)
    ensures c !in (if coin.coinbase then "1" else "0")
  {
    hide Decimal, BytesHex, Hex;
    NotAmong(HashText(o.txid), c);
    DecimalPlain(o.index, c);
    var value: int := coin.output.value;
    DecimalPlain(if value < 0 then 0 - value else value, c);
    DecimalPlain(coin.height, c);
    NotAmong(BytesHex(coin.output.scriptPubKey), c);
  }

  lemma {:induction false} UtxoLineRoundTrip(o: OutPoint, coin: Coin)
    requires MoneyRange(coin.output.value) && coin.height < TWO_64
    ensures ParseUtxoLine(UtxoLine(o, coin)) == Ok((o, coin))
    ensures '\n' !in UtxoLine(o, coin) && UtxoLine(o, coin) != ""
  {
    hide Join, Split, Decimal, ParseUnsigned, HashText, ParseHash, BytesHex, ParseBytes, SignedDecimal, ParseSigned;
    var fields := [HashText(o.txid), Decimal(o.index), SignedDecimal(coin.output.value), Decimal(coin.height),
                   if coin.coinbase then "1" else "0", BytesHex(coin.output.scriptPubKey)];
    UtxoLinePlain(o, coin, '\t');
    UtxoLinePlain(o, coin, '\n');
    SplitRoundTrip(fields, '\t');
    JoinFree(fields, '\t', '\n');
    JoinLonger(fields, '\t');
    HashTextRoundTrip(o.txid);
    UnsignedRoundTrip(o.index, TWO_32);
    SignedDecimalRoundTrip(coin.output.value);
    UnsignedRoundTrip(coin.height, TWO_64);
    BytesHexRoundTrip(coin.output.scriptPubKey);
  }

  lemma {:induction false} UtxoLinesNext(coins: Utxos) returns (o: OutPoint)
    requires coins != map[]
    ensures o in coins && UtxoLines(coins) == [UtxoLine(o, coins[o])] + UtxoLines(coins - {o})
  {
    hide UtxoLine;
    LeastExists(coins);
    o :| Least(o, coins) && UtxoLines(coins) == [UtxoLine(o, coins[o])] + UtxoLines(coins - {o});
  }

  lemma {:induction false} ParseOneCoin(line: string, rest: seq<string>, o: OutPoint, coin: Coin, before: Utxos)
    requires ParseUtxoLine(line) == Ok((o, coin)) && line != "" && o !in before
    ensures ParseCoinsFrom([line] + rest, before) == ParseCoinsFrom(rest, before[o := coin])
  {
    hide ParseUtxoLine;
    assert ([line] + rest)[1..] == rest;
  }

  lemma {:induction false} NoCoins(before: Utxos)
    ensures ParseCoinsFrom(UtxoLines(map[]), before) == Ok(before + map[]) && UtxoLines(map[]) == []
  {
    assert before + map[] == before;
  }

  lemma {:induction false} UtxoLinesRoundTrip(coins: Utxos, before: Utxos)
    requires CoinsFit(coins) && Apart(before, coins)
    ensures ParseCoinsFrom(UtxoLines(coins), before) == Ok(before + coins)
    ensures Free(UtxoLines(coins), '\n')
    decreases |coins|
  {
    hide UtxoLine, ParseUtxoLine, UtxoLines, ParseCoinsFrom, CoinsFit, Apart, Least;
    if coins == map[] {
      NoCoins(before);
    } else {
      var o := UtxoLinesNext(coins);
      var (coin, rest) := (coins[o], coins - {o});
      TakeOut(before, coins, o);
      UtxoLineRoundTrip(o, coin);
      UtxoLinesRoundTrip(rest, before[o := coin]);
      ParseOneCoin(UtxoLine(o, coin), UtxoLines(rest), o, coin, before);
    }
  }

  ghost predicate Apart(before: Utxos, coins: Utxos) {
    forall o :: o in coins ==> o !in before
  }

  lemma {:induction false} TakeOut(before: Utxos, coins: Utxos, o: OutPoint)
    requires CoinsFit(coins) && Apart(before, coins) && o in coins
    ensures |coins - {o}| < |coins| && CoinsFit(coins - {o}) && Apart(before[o := coins[o]], coins - {o})
    ensures before[o := coins[o]] + (coins - {o}) == before + coins
    ensures MoneyRange(coins[o].output.value) && coins[o].height < TWO_64 && o !in before
  {
    MoveOver(before, coins, o);
    RestSmaller(coins, o);
  }

  lemma {:induction false} RestSmaller<K, V>(m: map<K, V>, k: K)
    requires k in m
    ensures |m - {k}| < |m|
  {
    assert (m - {k}).Keys == m.Keys - {k};
    assert |m| == |m.Keys| && |m - {k}| == |(m - {k}).Keys|;
  }

  lemma {:induction false} MoveOver<K, V>(before: map<K, V>, m: map<K, V>, k: K)
    requires k in m
    ensures before[k := m[k]] + (m - {k}) == before + m
  {
    var (a, b) := (before[k := m[k]] + (m - {k}), before + m);
    assert forall x :: x in a <==> x in b;
    assert forall x :: x in a ==> a[x] == b[x];
  }

  /** A snapshot reads back as the map it was written from. */
  lemma {:induction false} UtxoRoundTrip(coins: Utxos, height: u64, hash: Hash256)
    requires CoinsFit(coins)
    ensures ParseUtxos(UtxoText(coins, height, HashText(hash)), height, HashText(hash)) == Ok(coins)
  {
    hide ParseCoinsFrom, UtxoLines, FromLines, Lines, Hex, Decimal, ParseUnsigned;
    UtxoLinesRoundTrip(coins, map[]);
    var lines := HeaderLines(height, HashText(hash)) + UtxoLines(coins);
    DecimalPlain(height, '\n');
    NotAmong(HashText(hash), '\n');
    LinesRoundTrip(lines);
    assert lines[1][7..] == Decimal(height) && lines[2][10..] == HashText(hash);
    UnsignedRoundTrip(height, TWO_64);
    assert lines[3..] == UtxoLines(coins);
    assert map[] + coins == coins;
  }

  // ---------------------------------------------------------------- manifest

  datatype Manifest = Manifest(
    generation: u64, height: u64, bestBlock: string, indexFile: string, indexDigest: string,
    utxoFile: string, utxoDigest: string, blockFileSize: u64)

  function FieldLine(field: (string, string)): string {
    field.0 + "=" + field.1
  }

  function FieldLines(fields: seq<(string, string)>): (lines: seq<string>)
    ensures |lines| == |fields|
  {
    if fields == [] then [] else [FieldLine(fields[0])] + FieldLines(fields[1..])
  }

  function ManifestFields(m: Manifest): seq<(string, string)> {
    [("generation", Decimal(m.generation)), ("height", Decimal(m.height)), ("bestblock", m.bestBlock),
     ("index_file", m.indexFile), ("index_sha256", m.indexDigest), ("utxo_file", m.utxoFile),
     ("utxo_sha256", m.utxoDigest), ("block_file_size", Decimal(m.blockFileSize))]
  }

  function ManifestText(m: Manifest): string {
    FromLines([MANIFEST_MAGIC] + FieldLines(ManifestFields(m)))
  }

  /** Reading further lines on top of the fields read so far: the first value of a name stays. */
  function ParseFieldsFrom(lines: seq<string>, fields: map<string, string>): Result<map<string, string>>
    decreases |lines|
  {
    if lines == [] then Ok(fields)
    else if lines[0] == "" then ParseFieldsFrom(lines[1..], fields)
    else
      var i := Find(lines[0], '=');
      if i == |lines[0]| then Err(BadFormat)
      else if lines[0][..i] in fields then ParseFieldsFrom(lines[1..], fields)
      else ParseFieldsFrom(lines[1..], fields[lines[0][..i] := lines[0][i + 1..]])
  }

  function Get(fields: map<string, string>, name: string): Result<string> {
    if name in fields then Ok(fields[name]) else Err(BadFormat)
  }

  function GetNumber(fields: map<string, string>, name: string): Result<u64> {
    var text :- Get(fields, name);
    var n :- ParseUnsigned(text, TWO_64);
    if n < TWO_64 then Ok(n) else Err(BadFormat)
  }

  function ManifestOf(fields: map<string, string>): Result<Manifest> {
    var generation :- GetNumber(fields, "generation");
    var height :- GetNumber(fields, "height");
    var bestBlock :- Get(fields, "bestblock");
    var indexFile :- Get(fields, "index_file");
    var indexDigest :- Get(fields, "index_sha256");
    var utxoFile :- Get(fields, "utxo_file");
    var utxoDigest :- Get(fields, "utxo_sha256");
    var blockFileSize :- GetNumber(fields, "block_file_size");
    Ok(Manifest(generation, height, bestBlock, indexFile, indexDigest, utxoFile, utxoDigest, blockFileSize))
  }

  function ParseManifest(text: string): Result<Manifest> {
    var lines := Lines(text);
    if lines == [] || lines[0] != MANIFEST_MAGIC then Err(BadFormat) else
    var fields :- ParseFieldsFrom(lines[1..], map[]);
    ManifestOf(fields)
  }

  method ParseManifestText(text: string) returns (r: Result<Manifest>)
    ensures r == ParseManifest(text)
  {
    hide Lines, ManifestOf;
    var lines := Lines(text);
    if |lines| == 0 || lines[0] != MANIFEST_MAGIC {
      return Err(BadFormat);
    }
    var fields: map<string, string> := map[];
    for i := 1 to |lines|
      invariant ParseFieldsFrom(lines[i..], fields) == ParseFieldsFrom(lines[1..], map[])
    {
      assert lines[i..][1..] == lines[i + 1..];
      if lines[i] != "" {
        var separator := Find(lines[i], '=');
        if separator == |lines[i]| {
          return Err(BadFormat);
        }
        if lines[i][..separator] !in fields {
          fields := fields[lines[i][..separator] := lines[i][separator + 1..]];
        }
      }
    }
    return ManifestOf(fields);
  }

  /** The fields' names are distinct and hold no separator, and nothing holds a line end. */
  ghost predicate Proper(fields: seq<(string, string)>) {
    && (forall i :: 0 <= i < |fields| ==> '=' !in fields[i].0 && '\n' !in fields[i].0 && '\n' !in fields[i].1)
    && forall i, j :: 0 <= i < j < |fields| ==> fields[i].0 != fields[j].0
  }

  lemma {:induction false} FieldsRoundTrip(fields: seq<(string, string)>, before: map<string, string>)
    requires Proper(fields) && forall i :: 0 <= i < |fields| ==> fields[i].0 !in before
    ensures Free(FieldLines(fields), '\n')
    ensures var r := ParseFieldsFrom(FieldLines(fields), before);
            && r.Ok? && (forall i :: 0 <= i < |fields| ==> fields[i].0 in r.value && r.value[fields[i].0] == fields[i].1)
            && (forall name :: name in before ==> name in r.value && r.value[name] == before[name])
  {
    if fields != [] {
      var ((name, value), rest) := (fields[0], fields[1..]);
      var line := FieldLine(fields[0]);
      assert line == name + ['='] + value;
      FindAfter(name, '=', value);
      assert line[..|name|] == name && line[|name| + 1..] == value;
      assert FieldLines(fields)[1..] == FieldLines(rest);
      ProperRest(fields);
      forall i | 0 <= i < |rest|
        ensures rest[i].0 !in before[name := value]
      {
        assert rest[i] == fields[i + 1];
      }
      FieldsRoundTrip(rest, before[name := value]);
      forall i | 0 <= i < |fields|
        ensures fields[i].0 in ParseFieldsFrom(FieldLines(fields), before).value
        ensures ParseFieldsFrom(FieldLines(fields), before).value[fields[i].0] == fields[i].1
      {
        if i > 0 {
          assert fields[i] == rest[i - 1];
        }
      }
    }
  }

  lemma {:induction false} ProperRest(fields: seq<(string, string)>)
    requires Proper(fields) && |fields| > 0
    ensures Proper(fields[1..])
  {
    var rest := fields[1..];
    forall i, j | 0 <= i < j < |rest|
      ensures rest[i].0 != rest[j].0
    {
      assert fields[i + 1].0 != fields[j + 1].0;
    }
  }

  ghost predicate ManifestPlain(m: Manifest) {
    '\n' !in m.bestBlock && '\n' !in m.indexFile && '\n' !in m.indexDigest && '\n' !in m.utxoFile && '\n' !in m.utxoDigest
  }

  function FieldNames(): seq<string> {
    ["generation", "height", "bestblock", "index_file", "index_sha256", "utxo_file", "utxo_sha256", "block_file_size"]
  }

  lemma {:induction false} ManifestFieldsProper(m: Manifest)
    requires ManifestPlain(m)
    ensures Proper(ManifestFields(m))
  {
    DecimalPlain(m.generation, '\n');
    DecimalPlain(m.height, '\n');
    DecimalPlain(m.blockFileSize, '\n');
    NamesPlain();
    NamesDiffer();
    var fields := ManifestFields(m);
    NamedAsListed(m);
    hide Decimal, ManifestFields, FieldNames;
    forall i | 0 <= i < |fields|
      ensures '=' !in fields[i].0 && '\n' !in fields[i].0
    {
      assert fields[i].0 == FieldNames()[i];
    }
    forall i, j | 0 <= i < j < |fields|
      ensures fields[i].0 != fields[j].0
    {
      assert fields[i].0 == FieldNames()[i] && fields[j].0 == FieldNames()[j];
    }
  }

  lemma {:induction false} NamedAsListed(m: Manifest)
    ensures |ManifestFields(m)| == |FieldNames()| == 8
    ensures forall i :: 0 <= i < 8 ==> ManifestFields(m)[i].0 == FieldNames()[i]
    ensures ManifestPlain(m) && '\n' !in Decimal(m.generation) && '\n' !in Decimal(m.height)
            && '\n' !in Decimal(m.blockFileSize) ==>
              forall i :: 0 <= i < 8 ==> '\n' !in ManifestFields(m)[i].1
  {
    hide Decimal;
  }

  lemma {:induction false} NamesPlain()
    ensures forall i :: 0 <= i < |FieldNames()| ==> '=' !in FieldNames()[i] && '\n' !in FieldNames()[i]
  {
  }

  lemma {:induction false} NamesDiffer()
    ensures forall i, j :: 0 <= i < j < |FieldNames()| ==> FieldNames()[i] != FieldNames()[j]
  {
    var names := FieldNames();
    assert names[2][0] == 'b' && names[2][1] == 'e' && names[7][1] == 'l';
    assert |names[3]| == 10 && names[0][0] == 'g' && names[1][0] == 'h' && names[3][0] == 'i' && names[4][0] == 'i';
    assert names[5][0] == 'u' && names[6][0] == 'u' && names[7][0] == 'b';
  }

  /** A manifest reads back as it was written. */
  lemma {:induction false} ManifestRoundTrip(m: Manifest)
    requires ManifestPlain(m)
    ensures ParseManifest(ManifestText(m)) == Ok(m)
  {
    hide Lines, FromLines, FieldLines, ParseFieldsFrom, ParseUnsigned, Decimal;
    var fields := ManifestFields(m);
    ManifestFieldsProper(m);
    FieldsRoundTrip(fields, map[]);
    var lines := [MANIFEST_MAGIC] + FieldLines(fields);
    LinesRoundTrip(lines);
    assert lines[1..] == FieldLines(fields);
    UnsignedRoundTrip(m.generation, TWO_64);
    UnsignedRoundTrip(m.height, TWO_64);
    UnsignedRoundTrip(m.blockFileSize, TWO_64);
    var parsed := ParseFieldsFrom(FieldLines(fields), map[]).value;
    assert fields[0].0 in parsed && fields[1].0 in parsed && fields[2].0 in parsed && fields[3].0 in parsed;
    assert fields[4].0 in parsed && fields[5].0 in parsed && fields[6].0 in parsed && fields[7].0 in parsed;
  }

  // ---------------------------------------------------------------- file names

  const INDEX_PREFIX := "block-index-v1-"
  const UTXO_PREFIX := "utxo-v1-"
  const SUFFIX := ".tsv"
  const MANIFEST_NAME := "manifest-v1"

  function GenerationName(prefix: string, generation: u64): string {
    prefix + Padded(Decimal(generation)) + SUFFIX
  }

  function GenerationOf(name: string): Option<u64> {
    if |name| < |INDEX_PREFIX| + |SUFFIX| || !StartsWith(name, INDEX_PREFIX) || name[|name| - |SUFFIX|..] != SUFFIX then None
    else
      var number := ParseUnsigned(name[|INDEX_PREFIX|..|name| - |SUFFIX|], TWO_64);
      if number.Ok? && number.value < TWO_64 then Some(number.value) else None
  }

  /** Files of different generations or kinds never share a name. */
  lemma {:induction false} NamesApart(a: u64, b: u64)
    ensures GenerationName(INDEX_PREFIX, a) == GenerationName(INDEX_PREFIX, b) ==> a == b
    ensures GenerationName(UTXO_PREFIX, a) == GenerationName(UTXO_PREFIX, b) ==> a == b
    ensures GenerationName(INDEX_PREFIX, a) != GenerationName(UTXO_PREFIX, b)
    ensures GenerationName(INDEX_PREFIX, a) != MANIFEST_NAME && GenerationName(UTXO_PREFIX, a) != MANIFEST_NAME
  {
    hide Padded, Decimal, ParseUnsigned;
    var (da, db) := (Padded(Decimal(a)), Padded(Decimal(b)));
    var (ia, ib, ua, ub) := (GenerationName(INDEX_PREFIX, a), GenerationName(INDEX_PREFIX, b),
                             GenerationName(UTXO_PREFIX, a), GenerationName(UTXO_PREFIX, b));
    assert ia[15..|ia| - 4] == da && ib[15..|ib| - 4] == db;
    assert ua[8..|ua| - 4] == da && ub[8..|ub| - 4] == db;
    PaddedRoundTrip(a, TWO_64);
    PaddedRoundTrip(b, TWO_64);
    assert ia[0] == 'b' && ua[0] == 'u' && ub[0] == 'u' && MANIFEST_NAME[0] == 'm';
  }
}
