/**
 * The Search Console import's row reduction: the keyword and page lookup maps,
 * the per-row query record, and the best position per (keyword, day) that
 * becomes one SERP position write.
 *
 * What lies outside the model is passed in as an `Env`: the WHATWG URL parser
 * (`parseUrl`, `None` where `new URL` throws, otherwise the href with its hash
 * removed), the local-midnight day of a date string (`dayOf`), and the day of
 * "now" for rows without a date (`today`).
 */
module GscFetch {
  import opened Wrappers
  import opened Strings
  import opened Sequences
  import opened Numbers

  datatype Env = Env(
    keywordMap: map<string, string>,
    pageMap: map<string, string>,
    parseUrl: string -> Option<string>,
    dayOf: string -> int,
    today: int)

  datatype Keyword = Keyword(id: string, phrase: string)
  datatype Page = Page(id: string, url: string)

  /** A Search Console row: `keys` is [date, query, page]; any of them may be missing. */
  datatype Row = Row(keys: seq<string>, clicks: real, impressions: real, ctr: Option<real>, position: real)

  /** The `gscQuery` record written for every row. */
  datatype QueryWrite = QueryWrite(query: string, pageUrl: Option<string>, date: int,
                                   clicks: real, impressions: real, ctr: real, position: real)

  /** A `bestPositions` key: `${keywordId}:${date.toISOString()}`. */
  datatype BestKey = BestKey(keywordId: string, day: int)

  /** A `bestPositions` value. */
  datatype Best = Best(keywordId: string, pageId: Option<string>, position: real, clicks: real, capturedAt: int)

  /** The `serpPosition` record written for each retained key. */
  datatype SerpWrite = SerpWrite(keywordId: string, capturedAt: int, pageId: Option<string>, position: int, traffic: real)

  /** The `bestPositions` Map: its entries and its keys in insertion order. */
  datatype BestTable = BestTable(entries: map<BestKey, Best>, order: seq<BestKey>)

  /** A JavaScript string is truthy when it is present and non-empty. */
  predicate Truthy(s: Option<string>) {
    s.Some? && s.value != ""
  }

  /** `.replace(/\/$/, "")`: removes one "/" at the very end, if there is one. */
  function StripTrailingSlash(s: string): (r: string)
    ensures |s| > 0 && s[|s| - 1] == '/' ==> r + "/" == s
    ensures !(|s| > 0 && s[|s| - 1] == '/') ==> r == s
  {
    if |s| > 0 && s[|s| - 1] == '/' then s[..|s| - 1] else s
  }

  /** `normalizeUrl`: `null` for a missing or empty URL; otherwise the parsed href, or the trimmed input when parsing fails, without one trailing "/". */
  function NormalizeUrl(url: Option<string>, parseUrl: string -> Option<string>): (r: Option<string>)
    ensures !Truthy(url) <==> r.None?
    ensures Truthy(url) && parseUrl(url.value).None? ==> r == Some(StripTrailingSlash(Trim(url.value)))
    ensures Truthy(url) && parseUrl(url.value).Some? ==> r == Some(StripTrailingSlash(parseUrl(url.value).value))
  {
    if !Truthy(url) then None
    else match parseUrl(url.value)
      case Some(href) => Some(StripTrailingSlash(href))
      case None => Some(StripTrailingSlash(Trim(url.value)))
  }

  /** The fallback branch removes at most one slash: "a//" keeps one. */
  lemma StripOneSlashOnly()
    ensures StripTrailingSlash("a//") == "a/"
    ensures StripTrailingSlash("/") == ""
  {
  }

  /** Entry `j` of `keys` has no later equal entry before index `n`. */
  ghost predicate LastBefore<K>(keys: seq<K>, j: nat, n: nat)
    requires j < |keys|
  {
    forall l :: j < l < n && l < |keys| ==> keys[l] != keys[j]
  }

  /**
   * The map after `map.set(keys[j].value, ids[j])` for each present key in
   * turn; absent keys are skipped.
   */
  function LastWinsMap<K>(keys: seq<Option<K>>, ids: seq<string>): map<K, string>
    requires |keys| == |ids|
  {
    if keys == [] then map[]
    else
      var n := |keys| - 1;
      var m := LastWinsMap(keys[..n], ids[..n]);
      if keys[n].Some? then m[keys[n].value := ids[n]] else m
  }

  /** The map's keys are exactly the present keys. */
  lemma {:induction false} LastWinsMapKeys<K>(keys: seq<Option<K>>, ids: seq<string>)
    requires |keys| == |ids|
    ensures var m := LastWinsMap(keys, ids);
      && (forall j :: 0 <= j < |keys| && keys[j].Some? ==> keys[j].value in m)
      && (forall k :: k in m ==> Some(k) in keys)
    decreases |keys|
  {
    if keys != [] {
      var n := |keys| - 1;
      var pkeys := keys[..n];
      LastWinsMapKeys(pkeys, ids[..n]);
      assert forall j :: 0 <= j < n ==> pkeys[j] == keys[j];
      forall k | k in LastWinsMap(keys, ids) ensures Some(k) in keys {
        if Some(k) != keys[n] {
          var j :| 0 <= j < n && pkeys[j] == Some(k);
          assert keys[j] == Some(k);
        }
      }
    }
  }

  /** A present key maps to the id at its last occurrence. */
  lemma {:induction false} LastWinsMapValues<K>(keys: seq<Option<K>>, ids: seq<string>)
    requires |keys| == |ids|
    ensures var m := LastWinsMap(keys, ids);
      forall j :: 0 <= j < |keys| && keys[j].Some? && LastBefore(keys, j, |keys|) ==>
        keys[j].value in m && m[keys[j].value] == ids[j]
    decreases |keys|
  {
    if keys != [] {
      var n := |keys| - 1;
      var pkeys := keys[..n];
      LastWinsMapValues(pkeys, ids[..n]);
      assert forall j :: 0 <= j < n ==> pkeys[j] == keys[j];
      forall j | 0 <= j < n && LastBefore(keys, j, |keys|) ensures LastBefore(pkeys, j, |pkeys|) && keys[n] != keys[j] {
        forall l | j < l < n ensures pkeys[l] != pkeys[j] {
          assert keys[l] != keys[j];
        }
      }
    }
  }

  /** The lowercased phrases, the keys `buildKeywordMap` sets. */
  function PhraseKeys(keywords: seq<Keyword>): (r: seq<Option<string>>)
    ensures |r| == |keywords| && forall j :: 0 <= j < |keywords| ==> r[j] == Some(Lower(keywords[j].phrase))
  {
    seq(|keywords|, j requires 0 <= j < |keywords| => Some(Lower(keywords[j].phrase)))
  }

  function KeywordIds(keywords: seq<Keyword>): (r: seq<string>)
    ensures |r| == |keywords| && forall j :: 0 <= j < |keywords| ==> r[j] == keywords[j].id
  {
    seq(|keywords|, j requires 0 <= j < |keywords| => keywords[j].id)
  }

  /** The keyword map after `map.set(k.phrase.toLowerCase(), k.id)` for each keyword in turn. */
  function KeywordMapOf(keywords: seq<Keyword>): map<string, string> {
    LastWinsMap(PhraseKeys(keywords), KeywordIds(keywords))
  }

  /** `buildKeywordMap`. */
  method BuildKeywordMap(keywords: seq<Keyword>) returns (m: map<string, string>)
    ensures m == KeywordMapOf(keywords)
  {
    ghost var keys, ids := PhraseKeys(keywords), KeywordIds(keywords);
    m := map[];
    var i := 0;
    while i < |keywords|
      invariant 0 <= i <= |keywords|
      invariant m == LastWinsMap(keys[..i], ids[..i])
    {
      m := m[Lower(keywords[i].phrase) := keywords[i].id];
      assert keys[..i + 1][..i] == keys[..i] && ids[..i + 1][..i] == ids[..i];
      i := i + 1;
    }
    assert keys[..i] == keys && ids[..i] == ids;
  }

  /**
   * Every lowercased phrase is a key of the keyword map, every key is one, and
   * it maps to the id of the last keyword with that lowercased phrase.
   */
  lemma KeywordMapLastWins(keywords: seq<Keyword>)
    ensures var m := KeywordMapOf(keywords);
      && (forall k :: k in m <==> exists j :: 0 <= j < |keywords| && Lower(keywords[j].phrase) == k)
      && (forall j :: 0 <= j < |keywords| && (forall l :: j < l < |keywords| ==> Lower(keywords[l].phrase) != Lower(keywords[j].phrase)) ==>
            Lower(keywords[j].phrase) in m && m[Lower(keywords[j].phrase)] == keywords[j].id)
  {
    var keys, ids := PhraseKeys(keywords), KeywordIds(keywords);
    LastWinsMapKeys(keys, ids);
    LastWinsMapValues(keys, ids);
    forall k | k in KeywordMapOf(keywords) ensures exists j :: 0 <= j < |keywords| && Lower(keywords[j].phrase) == k {
      var j :| 0 <= j < |keys| && keys[j] == Some(k);
    }
    forall j | 0 <= j < |keywords| && (forall l :: j < l < |keywords| ==> Lower(keywords[l].phrase) != Lower(keywords[j].phrase))
      ensures LastBefore(keys, j, |keys|)
    {
    }
  }

  /** The normalized page URLs `buildPageMap` sets: falsy ones are skipped. */
  function PageKeys(pages: seq<Page>, parseUrl: string -> Option<string>): (r: seq<Option<string>>)
    ensures |r| == |pages|
    ensures forall j :: 0 <= j < |pages| ==>
      r[j] == (var n := NormalizeUrl(Some(pages[j].url), parseUrl); if Truthy(n) then n else None)
  {
    seq(|pages|, j requires 0 <= j < |pages| =>
      var n := NormalizeUrl(Some(pages[j].url), parseUrl); if Truthy(n) then n else None)
  }

  function PageIds(pages: seq<Page>): (r: seq<string>)
    ensures |r| == |pages| && forall j :: 0 <= j < |pages| ==> r[j] == pages[j].id
  {
    seq(|pages|, j requires 0 <= j < |pages| => pages[j].id)
  }

  /** The page map after the `forEach` callback has run for each page in turn. */
  function PageMapOf(pages: seq<Page>, parseUrl: string -> Option<string>): map<string, string> {
    LastWinsMap(PageKeys(pages, parseUrl), PageIds(pages))
  }

  /** `buildPageMap`. */
  method BuildPageMap(pages: seq<Page>, parseUrl: string -> Option<string>) returns (m: map<string, string>)
    ensures m == PageMapOf(pages, parseUrl)
  {
    ghost var keys, ids := PageKeys(pages, parseUrl), PageIds(pages);
    m := map[];
    var i := 0;
    while i < |pages|
      invariant 0 <= i <= |pages|
      invariant m == LastWinsMap(keys[..i], ids[..i])
    {
      var normalized := NormalizeUrl(Some(pages[i].url), parseUrl);
      assert keys[..i + 1][..i] == keys[..i] && ids[..i + 1][..i] == ids[..i];
      assert keys[i] == (if Truthy(normalized) then normalized else None);
      if Truthy(normalized) {
        m := m[normalized.value := pages[i].id];
      }
      i := i + 1;
    }
    assert keys[..i] == keys && ids[..i] == ids;
  }

  /**
   * The page map's keys are exactly the non-empty normalized URLs, and each
   * maps to the id of the last page with that normalized URL.
   */
  lemma PageMapLastWins(pages: seq<Page>, parseUrl: string -> Option<string>)
    ensures var m, urls := PageMapOf(pages, parseUrl), MapSeq(pages, (p: Page) => NormalizeUrl(Some(p.url), parseUrl));
      && (forall u :: u in m <==> u != "" && Some(u) in urls)
      && (forall j :: 0 <= j < |pages| && Truthy(urls[j]) && LastBefore(urls, j, |urls|) ==>
            urls[j].value in m && m[urls[j].value] == pages[j].id)
  {
    var urls := MapSeq(pages, (p: Page) => NormalizeUrl(Some(p.url), parseUrl));
    var keys, ids := PageKeys(pages, parseUrl), PageIds(pages);
    LastWinsMapKeys(keys, ids);
    LastWinsMapValues(keys, ids);
    var m := PageMapOf(pages, parseUrl);
    forall u | u in m ensures u != "" && Some(u) in urls {
      var j :| 0 <= j < |keys| && keys[j] == Some(u);
      assert urls[j] == Some(u);
    }
    forall u | u != "" && Some(u) in urls ensures u in m {
      var j :| 0 <= j < |urls| && urls[j] == Some(u);
      assert keys[j] == Some(u);
    }
    forall j | 0 <= j < |pages| && Truthy(urls[j]) && LastBefore(urls, j, |urls|) ensures LastBefore(keys, j, |keys|) {
      forall l | j < l < |keys| ensures keys[l] != keys[j] {
        assert urls[l] != urls[j];
      }
    }
  }

  /** `row.keys[i]`, `undefined` past the end. */
  function KeyAt(keys: seq<string>, i: nat): Option<string> {
    if i < |keys| then Some(keys[i]) else None
  }

  /** `(queryRaw ?? "(not set)").toLowerCase()`. */
  function RowQuery(row: Row): (q: string)
    ensures |row.keys| < 2 ==> q == "(not set)"
    ensures |row.keys| >= 2 ==> q == Lower(row.keys[1])
  {
    Lower(KeyAt(row.keys, 1).GetOr("(not set)"))
  }

  /** The row's day: that of its date key, or today when the key is missing or empty. */
  function RowDay(row: Row, env: Env): int {
    var dateKey := KeyAt(row.keys, 0);
    if Truthy(dateKey) then env.dayOf(dateKey.value) else env.today
  }

  function RowPageUrl(row: Row, env: Env): Option<string> {
    NormalizeUrl(KeyAt(row.keys, 2), env.parseUrl)
  }

  /** `row.ctr ?? (row.impressions > 0 ? row.clicks / row.impressions : 0)`. */
  function Ctr(row: Row): (c: real)
    ensures row.ctr.Some? ==> c == row.ctr.value
    ensures row.ctr.None? && row.impressions <= 0.0 ==> c == 0.0
    ensures row.ctr.None? && row.impressions > 0.0 ==> c * row.impressions == row.clicks
  {
    match row.ctr
    case Some(c) => c
    case None => if row.impressions > 0.0 then row.clicks / row.impressions else 0.0
  }

  /** A computed click-through rate lies in [0, 1] when clicks do not exceed impressions. */
  lemma CtrFallbackRange(row: Row)
    requires row.ctr.None? && 0.0 <= row.clicks <= row.impressions
    ensures 0.0 <= Ctr(row) <= 1.0
  {
    if row.impressions > 0.0 {
      DivBelowOne(row.clicks, row.impressions);
    }
  }

  lemma DivBelowOne(a: real, b: real)
    requires 0.0 <= a <= b && b > 0.0
    ensures 0.0 <= a / b <= 1.0
  {
    var q := a / b;
    assert q * b == a;
  }

  /** The `gscQuery` upsert of one row. */
  function QueryWriteOf(row: Row, env: Env): QueryWrite {
    QueryWrite(RowQuery(row), RowPageUrl(row, env), RowDay(row, env), row.clicks, row.impressions, Ctr(row), row.position)
  }

  /** `keywordMap.get(query)` when it is truthy, the key of the row in `bestPositions`. */
  function RowKey(row: Row, env: Env): (k: Option<BestKey>)
    ensures k.Some? <==> RowQuery(row) in env.keywordMap && env.keywordMap[RowQuery(row)] != ""
    ensures k.Some? ==> k.value == BestKey(env.keywordMap[RowQuery(row)], RowDay(row, env))
  {
    var keywordId := if RowQuery(row) in env.keywordMap then Some(env.keywordMap[RowQuery(row)]) else None;
    if Truthy(keywordId) then Some(BestKey(keywordId.value, RowDay(row, env))) else None
  }

  /** The entry a row would store: `pageUrl ? pageMap.get(pageUrl) ?? null : null` for the page. */
  function Candidate(row: Row, env: Env): Best
    requires RowKey(row, env).Some?
  {
    var url := RowPageUrl(row, env);
    var pageId := if Truthy(url) && url.value in env.pageMap then Some(env.pageMap[url.value]) else None;
    Best(RowKey(row, env).value.keywordId, pageId, row.position, row.clicks, RowDay(row, env))
  }

  /** What a row offers to `bestPositions`: its key and entry, or nothing when its query has no keyword id. */
  datatype Offer = Offer(key: BestKey, entry: Best)

  function OfferOf(row: Row, env: Env): (o: Option<Offer>)
    ensures o.Some? <==> RowKey(row, env).Some?
    ensures o.Some? ==> o.value.key == RowKey(row, env).value && o.value.entry.position == row.position
    ensures o.Some? ==> o.value.entry.keywordId == o.value.key.keywordId && o.value.entry.capturedAt == o.value.key.day
  {
    match RowKey(row, env)
    case None => None
    case Some(k) => Some(Offer(k, Candidate(row, env)))
  }

  function Offers(rows: seq<Row>, env: Env): (r: seq<Option<Offer>>)
    ensures |r| == |rows| && forall i :: 0 <= i < |rows| ==> r[i] == OfferOf(rows[i], env)
  {
    seq(|rows|, i requires 0 <= i < |rows| => OfferOf(rows[i], env))
  }

  /** The body of the row loop for `bestPositions`: store the offer if its key is new or its position strictly smaller. */
  function Consider(t: BestTable, o: Option<Offer>): BestTable {
    match o
    case None => t
    case Some(Offer(k, e)) =>
      if k !in t.entries then BestTable(t.entries[k := e], t.order + [k])
      else if e.position < t.entries[k].position then BestTable(t.entries[k := e], t.order)
      else t
  }

  /** `bestPositions` after the row loop has seen `offers`. */
  function BestOf(offers: seq<Option<Offer>>): BestTable {
    if offers == [] then BestTable(map[], [])
    else Consider(BestOf(offers[..|offers| - 1]), offers[|offers| - 1])
  }

  function BestPositions(rows: seq<Row>, env: Env): BestTable {
    BestOf(Offers(rows, env))
  }

  predicate HasKey(o: Option<Offer>, k: BestKey) {
    o.Some? && o.value.key == k
  }

  /** Offer `i` wins key `k`: the first of the offers with that key that has the least position. */
  ghost predicate Winner(offers: seq<Option<Offer>>, i: nat, k: BestKey) {
    && i < |offers|
    && HasKey(offers[i], k)
    && (forall j :: 0 <= j < |offers| && HasKey(offers[j], k) ==> offers[i].value.entry.position <= offers[j].value.entry.position)
    && (forall j :: 0 <= j < i && HasKey(offers[j], k) ==> offers[j].value.entry.position > offers[i].value.entry.position)
  }

  /** An entry for each offered key, the winning offer's, and the keys once each in insertion order. */
  ghost predicate Summarizes(t: BestTable, offers: seq<Option<Offer>>) {
    && Distinct(t.order) && (forall k :: k in t.order <==> k in t.entries)
    && (forall i :: 0 <= i < |offers| && offers[i].Some? ==> offers[i].value.key in t.entries)
    && (forall k :: k in t.entries ==> exists i: nat :: Winner(offers, i, k) && t.entries[k] == offers[i].value.entry)
  }

  lemma {:induction false} BestOfSummarizes(offers: seq<Option<Offer>>)
    ensures Summarizes(BestOf(offers), offers)
    decreases |offers|
  {
    if offers != [] {
      var p := offers[..|offers| - 1];
      BestOfSummarizes(p);
      assert offers == p + [offers[|offers| - 1]];
      ConsiderStep(BestOf(p), p, offers[|offers| - 1]);
    }
  }

  lemma ConsiderStep(t: BestTable, offers: seq<Option<Offer>>, x: Option<Offer>)
    requires Summarizes(t, offers)
    ensures Summarizes(Consider(t, x), offers + [x])
  {
    if x.None? {
      OldWinnersStay(t, offers, x);
    } else if x.value.key !in t.entries {
      NewKeyStep(t, offers, x);
    } else if x.value.entry.position < t.entries[x.value.key].position {
      ReplaceStep(t, offers, x);
    } else {
      KeptWinner(t, offers, x);
    }
  }

  /** A new key is appended to the order and stored with the offer's entry. */
  lemma NewKeyStep(t: BestTable, offers: seq<Option<Offer>>, x: Option<Offer>)
    requires Summarizes(t, offers)
    requires x.Some? && x.value.key !in t.entries
    ensures Summarizes(Consider(t, x), offers + [x])
  {
    var t' := Consider(t, x);
    assert Distinct(t'.order) by {
      forall a, b | 0 <= a < b < |t'.order| ensures t'.order[a] != t'.order[b] {
        if b == |t.order| {
          assert t'.order[a] == t.order[a] && t.order[a] in t.order;
        }
      }
    }
    NewKeyWinner(t, offers, x);
    OldWinnersStay(t, offers, x);
  }

  /** A strictly smaller position replaces the entry and keeps the order. */
  lemma ReplaceStep(t: BestTable, offers: seq<Option<Offer>>, x: Option<Offer>)
    requires Summarizes(t, offers)
    requires x.Some? && x.value.key in t.entries && x.value.entry.position < t.entries[x.value.key].position
    ensures Summarizes(Consider(t, x), offers + [x])
  {
    ReplacedWinner(t, offers, x);
    OldWinnersStay(t, offers, x);
  }

  /** A key offered for the first time has the new offer as its winner. */
  lemma NewKeyWinner(t: BestTable, offers: seq<Option<Offer>>, x: Option<Offer>)
    requires Summarizes(t, offers)
    requires x.Some? && x.value.key !in t.entries
    ensures Winner(offers + [x], |offers|, x.value.key)
  {
    var offers' := offers + [x];
    assert forall j :: 0 <= j < |offers| ==> offers'[j] == offers[j];
  }

  /** A strictly smaller position replaces the old winner. */
  lemma ReplacedWinner(t: BestTable, offers: seq<Option<Offer>>, x: Option<Offer>)
    requires Summarizes(t, offers)
    requires x.Some? && x.value.key in t.entries && x.value.entry.position < t.entries[x.value.key].position
    ensures Winner(offers + [x], |offers|, x.value.key)
  {
    var offers' := offers + [x];
    var k := x.value.key;
    var w: nat :| Winner(offers, w, k) && t.entries[k] == offers[w].value.entry;
    assert forall j :: 0 <= j < |offers| ==> offers'[j] == offers[j];
    forall j | 0 <= j < |offers| && HasKey(offers'[j], k)
      ensures offers'[j].value.entry.position > x.value.entry.position
    {
      assert offers[w].value.entry.position <= offers[j].value.entry.position;
    }
  }

  /** Keys other than the offered one keep their winners. */
  lemma OldWinnersStay(t: BestTable, offers: seq<Option<Offer>>, x: Option<Offer>)
    requires Summarizes(t, offers)
    ensures forall k :: k in t.entries && !HasKey(x, k) ==>
      exists i: nat :: Winner(offers + [x], i, k) && t.entries[k] == (offers + [x])[i].value.entry
  {
    var offers' := offers + [x];
    assert forall j :: 0 <= j < |offers| ==> offers'[j] == offers[j];
    forall k | k in t.entries && !HasKey(x, k)
      ensures exists i: nat :: Winner(offers', i, k) && t.entries[k] == offers'[i].value.entry
    {
      var i: nat :| Winner(offers, i, k) && t.entries[k] == offers[i].value.entry;
      assert Winner(offers', i, k);
    }
  }

  /** A position that is not strictly smaller leaves the table as it was. */
  lemma KeptWinner(t: BestTable, offers: seq<Option<Offer>>, x: Option<Offer>)
    requires Summarizes(t, offers)
    requires x.Some? && x.value.key in t.entries && x.value.entry.position >= t.entries[x.value.key].position
    ensures Summarizes(t, offers + [x])
  {
    var offers' := offers + [x];
    var k := x.value.key;
    OldWinnersStay(t, offers, x);
    var w: nat :| Winner(offers, w, k) && t.entries[k] == offers[w].value.entry;
    assert forall j :: 0 <= j < |offers| ==> offers'[j] == offers[j];
    assert Winner(offers', w, k);
  }

  function SerpOf(b: Best): SerpWrite {
    SerpWrite(b.keywordId, b.capturedAt, b.pageId, Round(b.position), b.clicks)
  }

  /** The `bestPositions` part of the row loop's body, for one row. */
  method OfferRow(bestPositions: map<BestKey, Best>, order: seq<BestKey>, row: Row, env: Env)
    returns (bestPositions': map<BestKey, Best>, order': seq<BestKey>)
    ensures BestTable(bestPositions', order') == Consider(BestTable(bestPositions, order), OfferOf(row, env))
  {
    bestPositions', order' := bestPositions, order;
    var query := RowQuery(row);
    var keywordId := if query in env.keywordMap then Some(env.keywordMap[query]) else None;
    if Truthy(keywordId) {
      var key := BestKey(keywordId.value, RowDay(row, env));
      if key !in bestPositions {
        bestPositions' := bestPositions[key := Candidate(row, env)];
        order' := order + [key];
      } else if row.position < bestPositions[key].position {
        bestPositions' := bestPositions[key := Candidate(row, env)];
      }
    }
  }

  /** The loop over `bestPositions` in insertion order: one SERP write per key. */
  method WriteSerp(bestPositions: map<BestKey, Best>, order: seq<BestKey>) returns (serp: seq<SerpWrite>)
    requires forall k :: k in order ==> k in bestPositions
    ensures |serp| == |order| && forall w :: 0 <= w < |serp| ==> serp[w] == SerpOf(bestPositions[order[w]])
  {
    serp := [];
    var w := 0;
    while w < |order|
      invariant 0 <= w <= |order|
      invariant |serp| == w && forall v :: 0 <= v < w ==> serp[v] == SerpOf(bestPositions[order[v]])
    {
      serp := serp + [SerpOf(bestPositions[order[w]])];
      w := w + 1;
    }
  }

  /**
   * `persistRows`: one query record per row, then one SERP write per
   * `bestPositions` entry in insertion order; returns `rows.length`.
   */
  method PersistRows(rows: seq<Row>, env: Env) returns (count: nat, queries: seq<QueryWrite>, serp: seq<SerpWrite>)
    ensures count == |rows|
    ensures |queries| == |rows| && forall i :: 0 <= i < |rows| ==> queries[i] == QueryWriteOf(rows[i], env)
    ensures var t := BestPositions(rows, env);
      |serp| == |t.order| && forall w :: 0 <= w < |serp| ==> t.order[w] in t.entries && serp[w] == SerpOf(t.entries[t.order[w]])
  {
    var bestPositions: map<BestKey, Best> := map[];
    var order: seq<BestKey> := [];
    ghost var offers := Offers(rows, env);
    queries := [];
    var i := 0;
    while i < |rows|
      invariant 0 <= i <= |rows|
      invariant |queries| == i && forall j :: 0 <= j < i ==> queries[j] == QueryWriteOf(rows[j], env)
      invariant BestTable(bestPositions, order) == BestOf(offers[..i])
    {
      queries := queries + [QueryWriteOf(rows[i], env)];
      bestPositions, order := OfferRow(bestPositions, order, rows[i], env);
      assert offers[..i + 1][..i] == offers[..i];
      i := i + 1;
    }
    assert offers[..i] == offers;
    OrderedKeysStored(offers);
    serp := WriteSerp(bestPositions, order);
    count := |rows|;
  }

  /** Every key in the insertion order has an entry. */
  lemma OrderedKeysStored(offers: seq<Option<Offer>>)
    ensures forall k :: k in BestOf(offers).order ==> k in BestOf(offers).entries
  {
    BestOfSummarizes(offers);
  }

  /**
   * Exactly one SERP write per retained key: the written keys are pairwise
   * distinct, every row whose query has a keyword id has a write for its key,
   * and that write carries the rounded position of the key's winning row,
   * which is no larger than the rounded position of any row with that key.
   */
  lemma SerpWritesPerKey(rows: seq<Row>, env: Env)
    ensures var t := BestPositions(rows, env);
      && Distinct(t.order)
      && (forall i :: 0 <= i < |rows| && RowKey(rows[i], env).Some? ==> RowKey(rows[i], env).value in t.order)
      && (forall k :: k in t.entries ==>
            SerpOf(t.entries[k]).keywordId == k.keywordId && SerpOf(t.entries[k]).capturedAt == k.day
            && forall j :: 0 <= j < |rows| && RowKey(rows[j], env) == Some(k) ==>
                 SerpOf(t.entries[k]).position <= Round(rows[j].position))
  {
    var offers := Offers(rows, env);
    var t := BestOf(offers);
    BestOfSummarizes(offers);
    forall k | k in t.entries
      ensures SerpOf(t.entries[k]).keywordId == k.keywordId && SerpOf(t.entries[k]).capturedAt == k.day
      ensures forall j :: 0 <= j < |rows| && RowKey(rows[j], env) == Some(k) ==>
                SerpOf(t.entries[k]).position <= Round(rows[j].position)
    {
      var i: nat :| Winner(offers, i, k) && t.entries[k] == offers[i].value.entry;
      forall j | 0 <= j < |rows| && RowKey(rows[j], env) == Some(k)
        ensures Round(t.entries[k].position) <= Round(rows[j].position)
      {
        assert HasKey(offers[j], k);
        RoundMonotone(t.entries[k].position, rows[j].position);
      }
    }
  }

  /** Row `i` wins key `k`: the first of the rows with that key that has the least position. */
  ghost predicate RowWinner(rows: seq<Row>, env: Env, i: nat, k: BestKey) {
    && i < |rows| && RowKey(rows[i], env) == Some(k)
    && (forall j :: 0 <= j < |rows| && RowKey(rows[j], env) == Some(k) ==> rows[i].position <= rows[j].position)
    && (forall j :: 0 <= j < i && RowKey(rows[j], env) == Some(k) ==> rows[j].position > rows[i].position)
  }

  /** The retained entry for a key is that of the first of its rows with the least position. */
  lemma BestPositionsWinner(rows: seq<Row>, env: Env, k: BestKey)
    requires k in BestPositions(rows, env).entries
    ensures exists i: nat :: RowWinner(rows, env, i, k) && BestPositions(rows, env).entries[k] == Candidate(rows[i], env)
  {
    var offers := Offers(rows, env);
    EntryWinner(offers, k);
    var i: nat :| Winner(offers, i, k) && BestOf(offers).entries[k] == offers[i].value.entry;
    WinnerRow(rows, env, i, k);
  }

  /** Each stored entry is its key's winning offer. */
  lemma EntryWinner(offers: seq<Option<Offer>>, k: BestKey)
    requires k in BestOf(offers).entries
    ensures exists i: nat :: Winner(offers, i, k) && BestOf(offers).entries[k] == offers[i].value.entry
  {
    BestOfSummarizes(offers);
  }

  /** A winning offer is a winning row. */
  lemma WinnerRow(rows: seq<Row>, env: Env, i: nat, k: BestKey)
    requires Winner(Offers(rows, env), i, k)
    ensures RowWinner(rows, env, i, k) && Offers(rows, env)[i].value.entry == Candidate(rows[i], env)
  {
    var offers := Offers(rows, env);
    assert forall j :: 0 <= j < |rows| ==> (RowKey(rows[j], env) == Some(k) <==> HasKey(offers[j], k));
  }

  /** Rows whose query has no keyword id add no entry: with an empty keyword map there is no SERP write. */
  lemma NoKeywordsNoWrites(rows: seq<Row>, env: Env)
    requires env.keywordMap == map[]
    ensures BestPositions(rows, env).entries == map[]
    ensures BestPositions(rows, env).order == []
  {
    var offers := Offers(rows, env);
    BestOfSummarizes(offers);
    assert forall i :: 0 <= i < |offers| ==> offers[i].None?;
    HeadIn(BestOf(offers).order);
  }
}
