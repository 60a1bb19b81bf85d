/** `AnimalsScrapper`: the walk over the rows of the animal table and the
    accumulation, in `run`, of the adjective index, the synonym map and the
    image link map.

    Fetching the page and picking the third table are outside this model:
    the table arrives as its rows, each row the texts of its `td` cells. The
    image link lookup, which fetches the animal's own page, is a parameter. */
module Scrapper {
  import opened Text
  import opened Results
  import NameParser
  import Adjectives

  /** The columns the row walk reads. */
  const NameColumn: nat := 0
  const AdjectiveColumn: nat := 5

  /** What the row walk yields per row: (name, collateral_adjectives, synonym, image_download_link). */
  datatype AnimalRecord = AnimalRecord(name: string, adjectives: seq<string>, synonym: string, imageLink: string)

  /** The exceptions the row walk raises. */
  datatype ScrapeError =
    | NameWithoutLetters    // IndexError from `names_list[0]` in the name parser
    | MissingAdjectiveCell  // IndexError from `cols[5]` on a row of one to five cells
    | LinkLookupFailed      // any exception out of `_get_animal_pic_download_link`

  /** The image link of a row's name cell, found over the network; `None`
      stands for an exception (no link in the cell, a failed request). */
  type LinkLookup = seq<string> -> Option<string>

  datatype RowOutcome = Skipped | Yielded(record: AnimalRecord) | Raised(error: ScrapeError)

  /** One pass of the loop in `_generate_animals` over the cells of one row:
      a row without cells is skipped, any other needs six. */
  function ParseRow(cells: seq<string>, downloadPics: bool, lookup: LinkLookup): (o: RowOutcome)
    ensures o.Skipped? <==> cells == []
    ensures 1 <= |cells| <= AdjectiveColumn ==> o.Raised?
  {
    if cells == [] then Skipped
    else match NameParser.ParseAnimalName(cells[NameColumn])
      case Err(_) => Raised(NameWithoutLetters)
      case Ok((name, synonym)) =>
        if |cells| <= AdjectiveColumn then Raised(MissingAdjectiveCell)
        else
          var adjectives := Adjectives.CellAdjectives(cells[AdjectiveColumn]);
          if !downloadPics then Yielded(AnimalRecord(name, adjectives, synonym, ""))
          else match lookup(cells)
            case None => Raised(LinkLookupFailed)
            case Some(link) => Yielded(AnimalRecord(name, adjectives, synonym, link))
  }

  /** A row raises when its name cell has no leading name, when it has
      fewer than six cells, or when its link lookup fails; otherwise the
      record takes its name and synonym from cell 0, its adjectives from
      cell 5, and its link from the lookup, or "" with pictures off. */
  lemma RowFields(cells: seq<string>, downloadPics: bool, lookup: LinkLookup)
    ensures var o := ParseRow(cells, downloadPics, lookup);
      && (o.Raised? <==>
          && cells != []
          && (|| NameParser.ParseAnimalName(cells[NameColumn]).Err?
              || |cells| <= AdjectiveColumn
              || (downloadPics && lookup(cells).None?)))
      && (o.Yielded? ==>
          && |cells| > AdjectiveColumn
          && NameParser.ParseAnimalName(cells[NameColumn]) == Ok((o.record.name, o.record.synonym))
          && o.record.adjectives == Adjectives.CellAdjectives(cells[AdjectiveColumn])
          && (if downloadPics then lookup(cells) == Some(o.record.imageLink) else o.record.imageLink == "")
          && AllChars(o.record.name, IsNameChar))
  {
  }

  /** With pictures on, a lookup that finds no picture gives the empty link
      (lines 159-165), so an empty link does not mean that pictures are off. */
  lemma EmptyLinkWithPictures()
    ensures ParseRow([NameParser.TigerCell, "", "", "", "", "feline"], true, _ => Some("")) ==
      Yielded(AnimalRecord("Tiger", ["feline"], "", ""))
  {
    NameParser.TigerExample();
    Adjectives.SingleWordCell("feline");
  }

  /** The records a generator yields before it stops, and the exception
      that stopped it, if any. */
  datatype Generated = Generated(records: seq<AnimalRecord>, failure: Option<ScrapeError>)

  /** What the consumer of the generator sees of a sequence of row
      outcomes: the records up to the first exception, and that exception. */
  function Collect(outcomes: seq<RowOutcome>): (g: Generated)
    ensures |g.records| <= |outcomes|
    decreases |outcomes|
  {
    if outcomes == [] then Generated([], None)
    else match outcomes[0]
      case Skipped => Collect(outcomes[1..])
      case Raised(e) => Generated([], Some(e))
      case Yielded(r) =>
        var rest := Collect(outcomes[1..]);
        Generated([r] + rest.records, rest.failure)
  }

  /** The body of the loop in `_generate_animals`, as a function of the row. */
  function RowParser(downloadPics: bool, lookup: LinkLookup): seq<string> -> RowOutcome
  {
    row => ParseRow(row, downloadPics, lookup)
  }

  /** The outcome of every row of the table, in order. */
  function Outcomes(rows: seq<seq<string>>, parse: seq<string> -> RowOutcome): seq<RowOutcome>
  {
    seq(|rows|, i requires 0 <= i < |rows| => parse(rows[i]))
  }

  /** `_generate_animals` over the rows of the table, as its consumer sees it. */
  function GenerateAnimals(rows: seq<seq<string>>, downloadPics: bool, lookup: LinkLookup): (g: Generated)
    ensures |g.records| <= |rows|
  {
    Collect(Outcomes(rows, RowParser(downloadPics, lookup)))
  }

  /** Every collected record was yielded by one of the outcomes. */
  lemma {:induction false} CollectedWereYielded(outcomes: seq<RowOutcome>)
    ensures forall r :: r in Collect(outcomes).records ==> Yielded(r) in outcomes
    decreases |outcomes|
  {
    if outcomes != [] {
      CollectedWereYielded(outcomes[1..]);
    }
  }

  /** Every yielded name is made of letters and spaces, every adjective is a
      word, and without pictures every link is empty. */
  lemma GeneratedRecords(rows: seq<seq<string>>, downloadPics: bool, lookup: LinkLookup)
    ensures var g := GenerateAnimals(rows, downloadPics, lookup);
      && (forall r :: r in g.records ==> AllChars(r.name, IsNameChar))
      && (forall r :: r in g.records ==> forall a :: a in r.adjectives ==> Adjectives.IsWord(a))
      && (!downloadPics ==> forall r :: r in g.records ==> r.imageLink == "")
  {
    var outcomes := Outcomes(rows, RowParser(downloadPics, lookup));
    CollectedWereYielded(outcomes);
    forall r | r in Collect(outcomes).records
      ensures AllChars(r.name, IsNameChar)
      ensures forall a :: a in r.adjectives ==> Adjectives.IsWord(a)
      ensures !downloadPics ==> r.imageLink == ""
    {
      var i :| 0 <= i < |outcomes| && outcomes[i] == Yielded(r);
      RowFields(rows[i], downloadPics, lookup);
    }
  }

  /** Consuming two stretches of outcomes one after the other: a failure in
      the first ends everything, otherwise the records concatenate. */
  lemma {:induction false} CollectAppend(x: seq<RowOutcome>, y: seq<RowOutcome>)
    ensures var gx := Collect(x);
      var gy := Collect(y);
      Collect(x + y) == if gx.failure.Some? then gx else Generated(gx.records + gy.records, gy.failure)
    decreases |x|
  {
    if x == [] {
      assert x + y == y;
    } else {
      assert (x + y)[0] == x[0] && (x + y)[1..] == x[1..] + y;
      CollectAppend(x[1..], y);
      match x[0]
      case Skipped =>
      case Raised(_) =>
      case Yielded(r) =>
        var rx := Collect(x[1..]).records;
        var ry := Collect(y).records;
        assert [r] + (rx + ry) == ([r] + rx) + ry;
    }
  }

  /** The generator is lazy: the rows before a failing row have all been
      yielded, and nothing after it is looked at. */
  lemma GenerateAppend(a: seq<seq<string>>, b: seq<seq<string>>, downloadPics: bool, lookup: LinkLookup)
    ensures var ga := GenerateAnimals(a, downloadPics, lookup);
      var gb := GenerateAnimals(b, downloadPics, lookup);
      GenerateAnimals(a + b, downloadPics, lookup) ==
        if ga.failure.Some? then ga else Generated(ga.records + gb.records, gb.failure)
  {
    var parse := RowParser(downloadPics, lookup);
    OutcomesAppend(a, b, parse);
    CollectAppend(Outcomes(a, parse), Outcomes(b, parse));
  }

  /** Consuming a single outcome. */
  lemma CollectOne(o: RowOutcome)
    ensures Collect([o]) == match o
      case Skipped => Generated([], None)
      case Raised(e) => Generated([], Some(e))
      case Yielded(r) => Generated([r], None)
  {
    assert [o][1..] == [];
  }

  /** One more row of the table, for a consumer that has seen `done` so far:
      a skipped row adds nothing, a yielded record is appended, and an
      exception ends the whole walk with the records seen so far. */
  lemma OutcomesStep(rows: seq<seq<string>>, i: nat, parse: seq<string> -> RowOutcome, done: seq<AnimalRecord>)
    requires i < |rows|
    requires Collect(Outcomes(rows[..i], parse)) == Generated(done, None)
    ensures match parse(rows[i])
      case Skipped => Collect(Outcomes(rows[..i + 1], parse)) == Generated(done, None)
      case Yielded(r) => Collect(Outcomes(rows[..i + 1], parse)) == Generated(done + [r], None)
      case Raised(e) => Collect(Outcomes(rows, parse)) == Generated(done, Some(e))
  {
    var x := Outcomes(rows[..i], parse);
    var o := parse(rows[i]);
    var rest := Outcomes(rows[i + 1..], parse);
    assert rows[..i + 1] == rows[..i] + [rows[i]];
    assert rows == rows[..i] + [rows[i]] + rows[i + 1..];
    OutcomesAppend(rows[..i], [rows[i]], parse);
    OutcomesAppend(rows[..i] + [rows[i]], rows[i + 1..], parse);
    assert Outcomes([rows[i]], parse) == [o];
    CollectStep(x, o, rest, done);
  }

  /** The outcomes of two stretches of rows, one after the other. */
  lemma OutcomesAppend(a: seq<seq<string>>, b: seq<seq<string>>, parse: seq<string> -> RowOutcome)
    ensures Outcomes(a + b, parse) == Outcomes(a, parse) + Outcomes(b, parse)
  {
    var ab := Outcomes(a + b, parse);
    var oa := Outcomes(a, parse);
    var ob := Outcomes(b, parse);
    forall k | 0 <= k < |ab|
      ensures ab[k] == (oa + ob)[k]
    {
      if k < |a| {
        assert (a + b)[k] == a[k];
      } else {
        assert (a + b)[k] == b[k - |a|];
      }
    }
    assert ab == oa + ob;
  }

  /** `OutcomesStep` for the rows of the table and their parser. */
  lemma GenerateStep(rows: seq<seq<string>>, i: nat, downloadPics: bool, lookup: LinkLookup, done: seq<AnimalRecord>)
    requires i < |rows|
    requires GenerateAnimals(rows[..i], downloadPics, lookup) == Generated(done, None)
    ensures match ParseRow(rows[i], downloadPics, lookup)
      case Skipped => GenerateAnimals(rows[..i + 1], downloadPics, lookup) == Generated(done, None)
      case Yielded(r) => GenerateAnimals(rows[..i + 1], downloadPics, lookup) == Generated(done + [r], None)
      case Raised(e) => GenerateAnimals(rows, downloadPics, lookup) == Generated(done, Some(e))
  {
    var parse := RowParser(downloadPics, lookup);
    OutcomesStep(rows, i, parse, done);
    assert parse(rows[i]) == ParseRow(rows[i], downloadPics, lookup);
  }

  /** `OutcomesStep` on the outcomes themselves: `x` has been consumed
      without failure, `o` is next and `rest` follows. */
  lemma CollectStep(x: seq<RowOutcome>, o: RowOutcome, rest: seq<RowOutcome>, done: seq<AnimalRecord>)
    requires Collect(x) == Generated(done, None)
    ensures match o
      case Skipped => Collect(x + [o]) == Generated(done, None)
      case Yielded(r) => Collect(x + [o]) == Generated(done + [r], None)
      case Raised(e) => Collect(x + [o] + rest) == Generated(done, Some(e))
  {
    CollectAppend(x, [o]);
    CollectOne(o);
    assert done + [] == done;
    if o.Raised? {
      CollectAppend(x + [o], rest);
    }
  }

  /** A table of header and spacer rows only yields nothing. */
  lemma GenerateEmptyRows(rows: seq<seq<string>>, downloadPics: bool, lookup: LinkLookup)
    requires forall i :: 0 <= i < |rows| ==> rows[i] == []
    ensures GenerateAnimals(rows, downloadPics, lookup) == Generated([], None)
  {
    SkippedCollectNothing(Outcomes(rows, RowParser(downloadPics, lookup)));
  }

  /** Outcomes that are all skipped collect nothing. */
  lemma {:induction false} SkippedCollectNothing(outcomes: seq<RowOutcome>)
    requires forall i :: 0 <= i < |outcomes| ==> outcomes[i] == Skipped
    ensures Collect(outcomes) == Generated([], None)
    decreases |outcomes|
  {
    if outcomes != [] {
      SkippedCollectNothing(outcomes[1..]);
    }
  }

  /** What `run` needs besides the records: `_download_pics`,
      `_download_path` and `os.path.join`, which is left uninterpreted. */
  datatype Settings = Settings(downloadPics: bool, downloadPath: string, join: (string, string) -> string)

  /** `f'<img src="{lcl_image_path}" alt="{name}">'` with
      `lcl_image_path = os.path.join(download_path, f'{name}.png')`. */
  function ImageTag(settings: Settings, name: string): string
  {
    "<img src=\"" + settings.join(settings.downloadPath, name + ".png") + "\" alt=\"" + name + "\">"
  }

  /** The bucket of an adjective, empty while the adjective has none. */
  function Bucket(m: map<string, seq<string>>, a: string): seq<string>
  {
    if a in m then m[a] else []
  }

  /** `n` copies of `v`. */
  function Repeat(v: string, n: nat): seq<string>
  {
    seq(n, _ => v)
  }

  /** For each key in turn, `v` is appended to its bucket, which is created
      if missing. */
  function AppendEach(m: map<string, seq<string>>, keys: seq<string>, v: string): map<string, seq<string>>
    decreases |keys|
  {
    if keys == [] then m
    else
      var n := |keys| - 1;
      var r0 := AppendEach(m, keys[..n], v);
      r0[keys[n] := Bucket(r0, keys[n]) + [v]]
  }

  /** Appending for each key creates exactly the missing buckets of the keys. */
  lemma {:induction false} AppendEachKeys(m: map<string, seq<string>>, keys: seq<string>, v: string)
    ensures AppendEach(m, keys, v).Keys == m.Keys + set k | k in keys
    decreases |keys|
  {
    if keys != [] {
      var n := |keys| - 1;
      AppendEachKeys(m, keys[..n], v);
      assert keys == keys[..n] + [keys[n]];
    }
  }

  /** Appending `v` for each key leaves every bucket with `v` once per
      occurrence of its key at its end. */
  lemma {:induction false} AppendEachBucket(m: map<string, seq<string>>, keys: seq<string>, v: string, a: string)
    requires a in AppendEach(m, keys, v)
    ensures AppendEach(m, keys, v)[a] == Bucket(m, a) + Repeat(v, multiset(keys)[a])
    decreases |keys|
  {
    if keys == [] {
      assert Repeat(v, 0) == [];
    } else {
      var n := |keys| - 1;
      var r0 := AppendEach(m, keys[..n], v);
      assert keys == keys[..n] + [keys[n]];
      var c0 := multiset(keys[..n])[a];
      assert multiset(keys)[a] == c0 + (if a == keys[n] then 1 else 0);
      assert Bucket(r0, a) == Bucket(m, a) + Repeat(v, c0) by {
        if a in r0 {
          AppendEachBucket(m, keys[..n], v, a);
        } else {
          AppendEachKeys(m, keys[..n], v);
          assert a !in multiset(keys[..n]);
          assert Repeat(v, 0) == [];
        }
      }
      AppendOneBucket(r0, Bucket(m, a), keys[n], v, a, c0);
    }
  }

  /** One more append to the bucket of `k`, seen from the bucket of `a`. */
  lemma AppendOneBucket(r0: map<string, seq<string>>, base: seq<string>, k: string, v: string, a: string, c0: nat)
    requires Bucket(r0, a) == base + Repeat(v, c0)
    ensures Bucket(r0[k := Bucket(r0, k) + [v]], a) == base + Repeat(v, c0 + (if a == k then 1 else 0))
  {
    if a == k {
      assert Repeat(v, c0 + 1) == Repeat(v, c0) + [v];
    }
  }

  /** The appends for the keys up to `i` are those up to `i - 1` and one more. */
  lemma AppendEachStep(m: map<string, seq<string>>, keys: seq<string>, i: nat, v: string)
    requires i < |keys|
    ensures var r0 := AppendEach(m, keys[..i], v);
      AppendEach(m, keys[..i + 1], v) == r0[keys[i] := Bucket(r0, keys[i]) + [v]]
  {
    assert keys[..i + 1][..i] == keys[..i];
  }

  /** What one record adds to the bucket of adjective `a`: its name once per
      occurrence of `a` among its adjectives, then, with pictures on, its
      image tag as many times. */
  function Contribution(settings: Settings, rec: AnimalRecord, a: string): seq<string>
  {
    var c := multiset(rec.adjectives)[a];
    Repeat(rec.name, c) + (if settings.downloadPics then Repeat(ImageTag(settings, rec.name), c) else [])
  }

  /** Lines 49-53 and 56-59: the adjective index after one record. Only the
      buckets of the record's adjectives change, each gets the record's
      contribution at its end, and missing buckets are created. */
  function AddToIndex(settings: Settings, m: map<string, seq<string>>, rec: AnimalRecord): map<string, seq<string>>
  {
    var withNames := AppendEach(m, rec.adjectives, rec.name);
    if settings.downloadPics then AppendEach(withNames, rec.adjectives, ImageTag(settings, rec.name))
    else withNames
  }

  /** Only the buckets of the record's adjectives are added. */
  lemma AddToIndexKeys(settings: Settings, m: map<string, seq<string>>, rec: AnimalRecord)
    ensures AddToIndex(settings, m, rec).Keys == m.Keys + set a | a in rec.adjectives
  {
    var withNames := AppendEach(m, rec.adjectives, rec.name);
    AppendEachKeys(m, rec.adjectives, rec.name);
    AppendEachKeys(withNames, rec.adjectives, ImageTag(settings, rec.name));
  }

  /** Each bucket gets the record's contribution at its end. */
  lemma AddToIndexBucket(settings: Settings, m: map<string, seq<string>>, rec: AnimalRecord, a: string)
    requires a in AddToIndex(settings, m, rec)
    ensures AddToIndex(settings, m, rec)[a] == Bucket(m, a) + Contribution(settings, rec, a)
  {
    var withNames := AppendEach(m, rec.adjectives, rec.name);
    AppendEachKeys(m, rec.adjectives, rec.name);
    AppendEachKeys(withNames, rec.adjectives, ImageTag(settings, rec.name));
    AppendEachBucket(m, rec.adjectives, rec.name, a);
    if settings.downloadPics {
      AppendEachBucket(withNames, rec.adjectives, ImageTag(settings, rec.name), a);
    }
  }

  /** The buckets of adjectives the record does not list are left as they were. */
  lemma OtherBucketsUnchanged(settings: Settings, m: map<string, seq<string>>, rec: AnimalRecord, a: string)
    requires a !in rec.adjectives
    ensures a in AddToIndex(settings, m, rec) <==> a in m
    ensures a in m ==> AddToIndex(settings, m, rec)[a] == m[a]
  {
    AddToIndexKeys(settings, m, rec);
    if a in m {
      AddToIndexBucket(settings, m, rec, a);
      assert multiset(rec.adjectives)[a] == 0;
      assert Contribution(settings, rec, a) == [];
    }
  }

  /** With pictures on, a listed adjective's bucket gets the name once per
      occurrence and then the image tag as many times, so each name comes
      before its tag. */
  lemma NamesBeforeTags(settings: Settings, m: map<string, seq<string>>, rec: AnimalRecord, a: string)
    requires settings.downloadPics && a in rec.adjectives
    ensures a in AddToIndex(settings, m, rec)
    ensures var b := AddToIndex(settings, m, rec)[a];
      var k := |Bucket(m, a)|;
      var c := multiset(rec.adjectives)[a];
      && c > 0
      && |b| == k + 2 * c
      && b[..k] == Bucket(m, a)
      && (forall t :: k <= t < k + c ==> b[t] == rec.name)
      && (forall t :: k + c <= t < k + 2 * c ==> b[t] == ImageTag(settings, rec.name))
  {
    AddToIndexKeys(settings, m, rec);
    AddToIndexBucket(settings, m, rec, a);
    assert multiset(rec.adjectives)[a] > 0;
  }

  /** Lines 46-48: a record with a synonym records it under its name. */
  function AddSynonym(m: map<string, string>, rec: AnimalRecord): map<string, string>
  {
    if rec.synonym != "" then m[rec.name := rec.synonym] else m
  }

  /** Line 55: with pictures on, the record's image link is kept under its name. */
  function AddLink(settings: Settings, m: map<string, string>, rec: AnimalRecord): map<string, string>
  {
    if settings.downloadPics then m[rec.name := rec.imageLink] else m
  }

  /** The adjective index after the records, in order. */
  function IndexAnimals(settings: Settings, m: map<string, seq<string>>, recs: seq<AnimalRecord>): map<string, seq<string>>
    decreases |recs|
  {
    if recs == [] then m
    else AddToIndex(settings, IndexAnimals(settings, m, recs[..|recs| - 1]), recs[|recs| - 1])
  }

  function IndexSynonyms(m: map<string, string>, recs: seq<AnimalRecord>): map<string, string>
    decreases |recs|
  {
    if recs == [] then m else AddSynonym(IndexSynonyms(m, recs[..|recs| - 1]), recs[|recs| - 1])
  }

  function IndexLinks(settings: Settings, m: map<string, string>, recs: seq<AnimalRecord>): map<string, string>
    decreases |recs|
  {
    if recs == [] then m else AddLink(settings, IndexLinks(settings, m, recs[..|recs| - 1]), recs[|recs| - 1])
  }

  /** The bucket of `a` read adjective by adjective: the contributions of the
      records in the order they were yielded. */
  function Contributions(settings: Settings, recs: seq<AnimalRecord>, a: string): seq<string>
    decreases |recs|
  {
    if recs == [] then []
    else Contributions(settings, recs[..|recs| - 1], a) + Contribution(settings, recs[|recs| - 1], a)
  }

  /** A bucket exists exactly when it existed before or some record lists
      its adjective. */
  lemma {:induction false} IndexHas(settings: Settings, m: map<string, seq<string>>, recs: seq<AnimalRecord>, a: string)
    ensures a in IndexAnimals(settings, m, recs) <==> a in m || exists r :: r in recs && a in r.adjectives
    decreases |recs|
  {
    if recs != [] {
      var n := |recs| - 1;
      IndexHas(settings, m, recs[..n], a);
      var before := IndexAnimals(settings, m, recs[..n]);
      AddToIndexKeys(settings, before, recs[n]);
      assert recs == recs[..n] + [recs[n]];
      assert (exists r :: r in recs && a in r.adjectives) <==>
        (exists r :: r in recs[..n] && a in r.adjectives) || a in recs[n].adjectives;
    }
  }

  /** Folding one more record into the three dictionaries. */
  lemma IndexOneMore(settings: Settings, animals: map<string, seq<string>>, synonyms: map<string, string>,
                     links: map<string, string>, recs: seq<AnimalRecord>, rec: AnimalRecord)
    ensures IndexAnimals(settings, animals, recs + [rec]) == AddToIndex(settings, IndexAnimals(settings, animals, recs), rec)
    ensures IndexSynonyms(synonyms, recs + [rec]) == AddSynonym(IndexSynonyms(synonyms, recs), rec)
    ensures IndexLinks(settings, links, recs + [rec]) == AddLink(settings, IndexLinks(settings, links, recs), rec)
  {
    assert (recs + [rec])[..|recs|] == recs;
  }

  /** Each bucket of the index is what it was plus the contributions of the
      records, in the order they were yielded. */
  lemma {:induction false} IndexBucket(settings: Settings, m: map<string, seq<string>>, recs: seq<AnimalRecord>, a: string)
    ensures a in IndexAnimals(settings, m, recs) ==>
      IndexAnimals(settings, m, recs)[a] == Bucket(m, a) + Contributions(settings, recs, a)
    decreases |recs|
  {
    if recs != [] {
      var n := |recs| - 1;
      IndexBucket(settings, m, recs[..n], a);
      var before := IndexAnimals(settings, m, recs[..n]);
      var after := IndexAnimals(settings, m, recs);
      assert after == AddToIndex(settings, before, recs[n]);
      var earlier := Contributions(settings, recs[..n], a);
      var last := Contribution(settings, recs[n], a);
      assert Contributions(settings, recs, a) == earlier + last;
      if a in after {
        AddToIndexBucket(settings, before, recs[n], a);
        if a in before {
          assert Bucket(before, a) == Bucket(m, a) + earlier;
        } else {
          IndexEmptyContributions(settings, m, recs[..n], a);
          assert Bucket(m, a) == [] && earlier == [];
        }
        assert (Bucket(m, a) + earlier) + last == Bucket(m, a) + (earlier + last);
      }
    }
  }

  /** While an adjective has no bucket, the records so far contributed
      nothing to it. */
  lemma {:induction false} IndexEmptyContributions(settings: Settings, m: map<string, seq<string>>, recs: seq<AnimalRecord>, a: string)
    requires a !in IndexAnimals(settings, m, recs)
    ensures a !in m && Contributions(settings, recs, a) == []
    decreases |recs|
  {
    if recs != [] {
      var n := |recs| - 1;
      var before := IndexAnimals(settings, m, recs[..n]);
      AddToIndexKeys(settings, before, recs[n]);
      IndexEmptyContributions(settings, m, recs[..n], a);
      assert multiset(recs[n].adjectives)[a] == 0;
    }
  }

  /** Starting from an empty index, every key is an adjective of some record. */
  lemma IndexKeys(settings: Settings, recs: seq<AnimalRecord>)
    ensures IndexAnimals(settings, map[], recs).Keys == set r, a | r in recs && a in r.adjectives :: a
  {
    forall a ensures a in IndexAnimals(settings, map[], recs) <==> exists r :: r in recs && a in r.adjectives {
      IndexHas(settings, map[], recs, a);
    }
  }

  /** A record's name appears in the bucket of its adjective at least once per occurrence of it. */
  lemma {:induction false} ContributionsHoldName(settings: Settings, recs: seq<AnimalRecord>, i: nat, a: string)
    requires i < |recs|
    ensures multiset(Contributions(settings, recs, a))[recs[i].name] >= multiset(recs[i].adjectives)[a]
    decreases |recs|
  {
    var n := |recs| - 1;
    var v := recs[i].name;
    var c := multiset(recs[i].adjectives)[a];
    var before := Contributions(settings, recs[..n], a);
    var last := Contribution(settings, recs[n], a);
    assert Contributions(settings, recs, a) == before + last;
    CountAppend(before, last, v);
    if i < n {
      assert recs[..n][i] == recs[i];
      ContributionsHoldName(settings, recs[..n], i, a);
      assert multiset(before)[v] >= c;
    } else {
      ContributionHoldsName(settings, recs[n], a);
      assert multiset(last)[v] >= c;
    }
  }

  /** One record's contribution to a bucket holds its name once per
      occurrence of the adjective. */
  lemma ContributionHoldsName(settings: Settings, rec: AnimalRecord, a: string)
    ensures multiset(Contribution(settings, rec, a))[rec.name] >= multiset(rec.adjectives)[a]
  {
    var c := multiset(rec.adjectives)[a];
    var names := Repeat(rec.name, c);
    var tags := if settings.downloadPics then Repeat(ImageTag(settings, rec.name), c) else [];
    assert Contribution(settings, rec, a) == names + tags;
    CountAppend(names, tags, rec.name);
    RepeatCount(rec.name, c);
  }

  /** Occurrences in a concatenation add up. */
  lemma CountAppend(x: seq<string>, y: seq<string>, v: string)
    ensures multiset(x + y)[v] == multiset(x)[v] + multiset(y)[v]
  {
    assert multiset(x + y) == multiset(x) + multiset(y);
  }

  lemma {:induction false} RepeatCount(v: string, c: nat)
    ensures multiset(Repeat(v, c))[v] == c
    decreases c
  {
    if c > 0 {
      RepeatCount(v, c - 1);
      assert Repeat(v, c) == Repeat(v, c - 1) + [v];
    }
  }

  /** Every adjective of every record has a bucket holding that record's name. */
  lemma NameFiledUnderAdjective(settings: Settings, m: map<string, seq<string>>, recs: seq<AnimalRecord>, i: nat, a: string)
    requires i < |recs| && a in recs[i].adjectives
    ensures a in IndexAnimals(settings, m, recs)
    ensures recs[i].name in IndexAnimals(settings, m, recs)[a]
  {
    IndexHas(settings, m, recs, a);
    IndexBucket(settings, m, recs, a);
    ContributionsHoldName(settings, recs, i, a);
    assert recs[i] in recs;
    assert multiset(recs[i].adjectives)[a] > 0;
    CountAppend(Bucket(m, a), Contributions(settings, recs, a), recs[i].name);
  }

  /** A later record with the same name and a synonym overwrites it: the
      synonym map holds the last one. */
  lemma {:induction false} LastSynonymWins(m: map<string, string>, recs: seq<AnimalRecord>, i: nat)
    requires i < |recs| && recs[i].synonym != ""
    requires forall j :: i < j < |recs| ==> recs[j].name != recs[i].name || recs[j].synonym == ""
    ensures recs[i].name in IndexSynonyms(m, recs)
    ensures IndexSynonyms(m, recs)[recs[i].name] == recs[i].synonym
    decreases |recs|
  {
    var n := |recs| - 1;
    if i < n {
      LastSynonymWins(m, recs[..n], i);
    }
  }

  /** Records without a synonym leave the synonym map alone. */
  lemma {:induction false} SynonymUntouched(m: map<string, string>, recs: seq<AnimalRecord>, name: string)
    requires forall r :: r in recs && r.name == name ==> r.synonym == ""
    ensures (name in IndexSynonyms(m, recs)) == (name in m)
    ensures name in m ==> IndexSynonyms(m, recs)[name] == m[name]
    decreases |recs|
  {
    if recs != [] {
      var n := |recs| - 1;
      assert recs[n] in recs;
      SynonymUntouched(m, recs[..n], name);
    }
  }

  /** With pictures off the link map is never written. */
  lemma {:induction false} LinksUntouchedWithoutPictures(settings: Settings, m: map<string, string>, recs: seq<AnimalRecord>)
    requires !settings.downloadPics
    ensures IndexLinks(settings, m, recs) == m
    decreases |recs|
  {
    if recs != [] {
      LinksUntouchedWithoutPictures(settings, m, recs[..|recs| - 1]);
    }
  }

  /** With pictures on every record's name gets a link, the last one wins. */
  lemma {:induction false} LastLinkWins(settings: Settings, m: map<string, string>, recs: seq<AnimalRecord>, i: nat)
    requires settings.downloadPics
    requires i < |recs|
    requires forall j :: i < j < |recs| ==> recs[j].name != recs[i].name
    ensures recs[i].name in IndexLinks(settings, m, recs)
    ensures IndexLinks(settings, m, recs)[recs[i].name] == recs[i].imageLink
    decreases |recs|
  {
    var n := |recs| - 1;
    if i < n {
      LastLinkWins(settings, m, recs[..n], i);
    }
  }

  /** Names that no record carries keep their link, or stay without one. */
  lemma {:induction false} LinksFrame(settings: Settings, m: map<string, string>, recs: seq<AnimalRecord>, name: string)
    requires forall r :: r in recs ==> r.name != name
    ensures (name in IndexLinks(settings, m, recs)) == (name in m)
    ensures name in m ==> IndexLinks(settings, m, recs)[name] == m[name]
    decreases |recs|
  {
    if recs != [] {
      var n := |recs| - 1;
      assert recs[n] in recs;
      LinksFrame(settings, m, recs[..n], name);
    }
  }

  /** The scraper object: the three dictionaries `run` fills in place. */
  class AnimalsScrapper {
    /** `_animals_dict`: collateral adjective to names and image tags. */
    var animals: map<string, seq<string>>
    /** `_animals_synonyms`: name to the animal it refers to. */
    var synonyms: map<string, string>
    /** `_img_download_links`: name to the link of its picture. */
    var imgDownloadLinks: map<string, string>
    const settings: Settings

    /** `__init__`: empty dictionaries (the URL is not part of this model). */
    constructor (downloadPics: bool, downloadPath: string, join: (string, string) -> string)
      ensures settings.downloadPics == downloadPics && settings.downloadPath == downloadPath && settings.join == join
      ensures animals == map[] && synonyms == map[] && imgDownloadLinks == map[]
    {
      settings := Settings(downloadPics, downloadPath, join);
      animals := map[];
      synonyms := map[];
      imgDownloadLinks := map[];
    }

    /** The body of the loop in `run` for one yielded record. */
    method AddRecord(rec: AnimalRecord)
      modifies this
      ensures animals == AddToIndex(settings, old(animals), rec)
      ensures synonyms == AddSynonym(old(synonyms), rec)
      ensures imgDownloadLinks == AddLink(settings, old(imgDownloadLinks), rec)
    {
      if rec.synonym != "" {
        synonyms := synonyms[rec.name := rec.synonym];
      }
      var i := 0;
      while i < |rec.adjectives|
        invariant 0 <= i <= |rec.adjectives|
        invariant animals == AppendEach(old(animals), rec.adjectives[..i], rec.name)
        invariant synonyms == AddSynonym(old(synonyms), rec)
        invariant imgDownloadLinks == old(imgDownloadLinks)
      {
        var adjective := rec.adjectives[i];
        AppendEachStep(old(animals), rec.adjectives, i, rec.name);
        if adjective in animals {
          animals := animals[adjective := animals[adjective] + [rec.name]];
        } else {
          assert Bucket(animals, adjective) + [rec.name] == [rec.name];
          animals := animals[adjective := [rec.name]];
        }
        i := i + 1;
      }
      assert rec.adjectives[..i] == rec.adjectives;
      ghost var withNames := animals;
      if settings.downloadPics {
        imgDownloadLinks := imgDownloadLinks[rec.name := rec.imageLink];
        AppendEachKeys(old(animals), rec.adjectives, rec.name);
        ghost var tag := ImageTag(settings, rec.name);
        i := 0;
        while i < |rec.adjectives|
          invariant 0 <= i <= |rec.adjectives|
          invariant animals == AppendEach(withNames, rec.adjectives[..i], tag)
          invariant synonyms == AddSynonym(old(synonyms), rec)
          invariant imgDownloadLinks == AddLink(settings, old(imgDownloadLinks), rec)
        {
          var adjective := rec.adjectives[i];
          var localImagePath := settings.join(settings.downloadPath, rec.name + ".png");
          var taggedImage := "<img src=\"" + localImagePath + "\" alt=\"" + rec.name + "\">";
          assert taggedImage == tag;
          AppendEachKeys(withNames, rec.adjectives[..i], tag);
          AppendEachStep(withNames, rec.adjectives, i, tag);
          assert adjective in withNames;
          animals := animals[adjective := animals[adjective] + [taggedImage]];
          i := i + 1;
        }
        assert rec.adjectives[..i] == rec.adjectives;
      }
    }

    /** `run` after the page is fetched: the generator's records are folded
      into the dictionaries one by one. If the generator raises, the records
      yielded before stay in the dictionaries and the exception is returned. */
    method Run(rows: seq<seq<string>>, lookup: LinkLookup) returns (failure: Option<ScrapeError>)
      modifies this
      ensures var g := GenerateAnimals(rows, settings.downloadPics, lookup);
        && failure == g.failure
        && animals == IndexAnimals(settings, old(animals), g.records)
        && synonyms == IndexSynonyms(old(synonyms), g.records)
        && imgDownloadLinks == IndexLinks(settings, old(imgDownloadLinks), g.records)
    {
      var i := 0;
      ghost var done: seq<AnimalRecord> := [];
      while i < |rows|
        invariant 0 <= i <= |rows|
        invariant GenerateAnimals(rows[..i], settings.downloadPics, lookup) == Generated(done, None)
        invariant animals == IndexAnimals(settings, old(animals), done)
        invariant synonyms == IndexSynonyms(old(synonyms), done)
        invariant imgDownloadLinks == IndexLinks(settings, old(imgDownloadLinks), done)
      {
        var outcome := ParseRow(rows[i], settings.downloadPics, lookup);
        GenerateStep(rows, i, settings.downloadPics, lookup, done);
        match outcome {
          case Skipped =>
          case Raised(e) =>
            return Some(e);
          case Yielded(rec) =>
            AddRecord(rec);
            IndexOneMore(settings, old(animals), old(synonyms), old(imgDownloadLinks), done, rec);
            done := done + [rec];
        }
        i := i + 1;
      }
      assert rows[..i] == rows;
      return None;
    }

    /** `get_animals` */
    method GetAnimals() returns (index: map<string, seq<string>>)
      ensures index == animals
    {
      index := animals;
    }

    /** `get_synonyms` */
    method GetSynonyms() returns (synonymMap: map<string, string>)
      ensures synonymMap == synonyms
    {
      synonymMap := synonyms;
    }
  }
}
