/**
 * The deterministic part of the wherEX mass-posting script: loading the price
 * list from the records a CSV or JSON reader yields, matching requested tender
 * items against it, and the decision to create an offer for a tender.
 */
module MassPostulate {
  import opened Wrappers
  import opened Text

  /** One CSV row or JSON object, as the reader yields it. */
  type Record = map<string, string>

  /**
   * A price-list entry. The price is kept as the text of the record: the
   * conversion with `float` is not part of this model.
   */
  datatype Product = Product(
    code: string,
    description: string,
    brand: string,
    category: string,
    price: string,
    imagePath: Option<string>,
    datasheetPath: Option<string>)

  datatype Error =
    | MissingCredentials                      // RuntimeError raised by main
    | UnsupportedFormat(suffix: string)       // ValueError raised by the loader
    | MissingKey(key: string)                 // KeyError from a record lookup

  // ---------------------------------------------------------------------------
  // Path suffix

  /** The position of the last `c` in `s`, or -1, as `str.rfind` answers. */
  function RFind(s: string, c: char): (r: int)
    ensures -1 <= r < |s|
    ensures r == -1 <==> c !in s
    ensures r >= 0 ==> s[r] == c && c !in s[r + 1..]
  {
    if |s| == 0 then -1
    else if s[|s| - 1] == c then |s| - 1
    else
      assert s[..|s| - 1] + [s[|s| - 1]] == s;
      RFind(s[..|s| - 1], c)
  }

  /**
   * `Path.name`: the last component, once trailing slashes and `.`
   * components, which `PurePath` drops when it parses the path, are gone.
   * The lemmas below characterise it case by case.
   */
  function FileName(path: string): (name: string)
    ensures '/' !in name && name != "."
    decreases |path|
  {
    if |path| > 0 && path[|path| - 1] == '/' then FileName(path[..|path| - 1])
    else if |path| == 1 && path[0] == '.' then ""
    else if |path| >= 2 && path[|path| - 1] == '.' && path[|path| - 2] == '/' then FileName(path[..|path| - 2])
    else if '/' in path then FileName(path[IndexOf(path, '/') + 1..])
    else path
  }

  /** A single component other than `.` is its own name. */
  lemma FileNameOfName(s: string)
    requires '/' !in s && s != "."
    ensures FileName(s) == s
  {
    if |s| >= 2 {
      assert s[|s| - 2] in s;
    }
  }

  /** Trailing slashes do not change the name. */
  lemma FileNameTrailingSlash(p: string)
    ensures FileName(p + "/") == FileName(p)
  {
    assert (p + "/")[..|p|] == p;
  }

  /** A final `.` component does not change the name. */
  lemma FileNameDotComponent(p: string)
    ensures FileName(p + "/.") == FileName(p)
  {
    assert (p + "/.")[..|p|] == p;
  }

  /** The name is the text after the last `/`, when that is a real component. */
  lemma {:induction false} FileNameLastComponent(p: string, s: string)
    requires '/' !in s && s != "" && s != "."
    ensures FileName(p + "/" + s) == s
    decreases |p|
  {
    var q := p + "/" + s;
    EndsInComponent(p, s);
    FileNameStep(q);
    if '/' in p {
      var i := IndexOf(p, '/');
      FirstSlashIn(p, "/" + s);
      SliceAfter(p, s, i);
      var rest := p[i + 1..] + "/" + s;
      assert q[IndexOf(q, '/') + 1..] == rest;
      FileNameLastComponent(p[i + 1..], s);
      assert FileName(q) == FileName(rest) == s;
    } else {
      assert "/" == ['/'];
      IndexOfAfter(p, '/', s);
      assert q[IndexOf(q, '/') + 1..] == s;
      FileNameOfName(s);
      assert FileName(q) == FileName(s) == s;
    }
  }

  /** What is left after the first `/` of `p/s`, when it lies in `p`. */
  lemma SliceAfter(p: string, s: string, i: nat)
    requires i < |p|
    ensures (p + ("/" + s))[i + 1..] == p[i + 1..] + "/" + s
    ensures p + "/" + s == p + ("/" + s)
  {
  }

  /** `p/s` ends in the component `s`: no trailing `/`, no final `.` component. */
  lemma EndsInComponent(p: string, s: string)
    requires '/' !in s && s != "" && s != "."
    ensures var q := p + "/" + s;
            && '/' in q && q[|q| - 1] != '/' && !(|q| == 1 && q[0] == '.')
            && !(|q| >= 2 && q[|q| - 1] == '.' && q[|q| - 2] == '/')
  {
    var q := p + "/" + s;
    assert q[|p|] == '/';
    assert q[|q| - 1] == s[|s| - 1] && s[|s| - 1] in s;
    if |s| >= 2 {
      assert q[|q| - 2] == s[|s| - 2] && s[|s| - 2] in s;
    } else {
      assert s == [s[0]];
    }
  }

  /** A path ending in a real component loses the text up to its first `/`. */
  lemma FileNameStep(q: string)
    requires '/' in q && q[|q| - 1] != '/' && !(|q| == 1 && q[0] == '.')
    requires !(|q| >= 2 && q[|q| - 1] == '.' && q[|q| - 2] == '/')
    ensures FileName(q) == FileName(q[IndexOf(q, '/') + 1..])
  {
  }

  /** Text appended after a `/` does not move the first `/`. */
  lemma FirstSlashIn(p: string, t: string)
    requires '/' in p
    ensures '/' in p + t && IndexOf(p + t, '/') == IndexOf(p, '/')
  {
    var i := IndexOf(p, '/');
    assert (p + t)[i] == '/';
    assert (p + t)[..i] == p[..i];
    IndexOfUnique(p + t, '/', i);
  }

  /** The first `c` is the one with no `c` before it. */
  lemma IndexOfUnique(s: string, c: char, i: nat)
    requires i < |s| && s[i] == c && c !in s[..i]
    ensures IndexOf(s, c) == i
  {
  }

  /**
   * `Path.suffix`: from the last dot of the name on, provided that dot is
   * neither the first nor the last character of the name; otherwise empty.
   */
  function Suffix(path: string): (ext: string)
    ensures ext == "" || (ext[0] == '.' && '.' !in ext[1..] && '/' !in ext)
    ensures var name := FileName(path);
            var i := RFind(name, '.');
            && (ext != "" <==> 0 < i < |name| - 1)
            && (ext != "" ==> |ext| < |name| && name[|name| - |ext|..] == ext && |name| - |ext| == i)
  {
    var name := FileName(path);
    var i := RFind(name, '.');
    if 0 < i < |name| - 1 then name[i..] else ""
  }

  predicate Supported(path: string)
  {
    var ext := Lower(Suffix(path));
    ext == ".csv" || ext == ".json"
  }

  // ---------------------------------------------------------------------------
  // Records to products

  predicate HasRequiredKeys(r: Record)
  {
    "code" in r && "description" in r && "brand" in r && "category" in r && "price" in r
  }

  /** The optional attachment path: absent when the key is missing or its value is empty. */
  function OptionalPath(r: Record, key: string): (o: Option<string>)
    ensures o == None <==> key !in r || r[key] == ""
    ensures o.Some? ==> key in r && o.value == r[key]
  {
    if key in r && r[key] != "" then Some(r[key]) else None
  }

  /** One record turned into a product, failing on the first absent required key. */
  function ToProduct(r: Record): (res: Result<Product, Error>)
    ensures res.Ok? <==> HasRequiredKeys(r)
    ensures res.Ok? ==> HasRequiredKeys(r)
                        && res.value.code == r["code"]
                        && res.value.description == r["description"]
                        && res.value.brand == r["brand"]
                        && res.value.category == r["category"]
                        && res.value.price == r["price"]
                        && res.value.imagePath == OptionalPath(r, "image_path")
                        && res.value.datasheetPath == OptionalPath(r, "datasheet_path")
    // the error names the first absent key in the order the record is read
    ensures res == Err(MissingKey("code")) <==> "code" !in r
    ensures res == Err(MissingKey("description")) <==> "code" in r && "description" !in r
    ensures res == Err(MissingKey("brand")) <==> "code" in r && "description" in r && "brand" !in r
    ensures res == Err(MissingKey("category"))
            <==> "code" in r && "description" in r && "brand" in r && "category" !in r
    ensures res == Err(MissingKey("price"))
            <==> "code" in r && "description" in r && "brand" in r && "category" in r && "price" !in r
  {
    var img := OptionalPath(r, "image_path");
    var pdf := OptionalPath(r, "datasheet_path");
    if "code" !in r then Err(MissingKey("code"))
    else if "description" !in r then Err(MissingKey("description"))
    else if "brand" !in r then Err(MissingKey("brand"))
    else if "category" !in r then Err(MissingKey("category"))
    else if "price" !in r then Err(MissingKey("price"))
    else Ok(Product(r["code"], r["description"], r["brand"], r["category"], r["price"], img, pdf))
  }

  /** The products of the records, in order, or the error of the first bad record. */
  function LoadRecords(rs: seq<Record>): Result<seq<Product>, Error>
  {
    if |rs| == 0 then Ok([])
    else
      match LoadRecords(rs[..|rs| - 1])
      case Err(e) => Err(e)
      case Ok(ps) =>
        match ToProduct(rs[|rs| - 1])
        case Err(e) => Err(e)
        case Ok(p) => Ok(ps + [p])
  }

  /** What `load_price_list` returns for a path whose reader yields `records`. */
  function Load(path: string, records: seq<Record>): Result<seq<Product>, Error>
  {
    if Supported(path) then LoadRecords(records) else Err(UnsupportedFormat(Suffix(path)))
  }

  /** A load that succeeds yields one product per record, in record order. */
  lemma {:induction false} LoadedInOrder(rs: seq<Record>)
    requires LoadRecords(rs).Ok?
    ensures |LoadRecords(rs).value| == |rs|
    ensures forall i :: 0 <= i < |rs| ==> ToProduct(rs[i]) == Ok(LoadRecords(rs).value[i])
  {
    if |rs| > 0 {
      var n := |rs| - 1;
      LoadedInOrder(rs[..n]);
      assert forall i :: 0 <= i < n ==> rs[..n][i] == rs[i];
    }
  }

  /** A load fails exactly when some record lacks a required key. */
  lemma {:induction false} LoadFailsIff(rs: seq<Record>)
    ensures LoadRecords(rs).Err? <==> exists i :: 0 <= i < |rs| && !HasRequiredKeys(rs[i])
  {
    if |rs| > 0 {
      var n := |rs| - 1;
      LoadFailsIff(rs[..n]);
      assert forall i :: 0 <= i < n ==> rs[..n][i] == rs[i];
      if LoadRecords(rs[..n]).Err? {
        var i :| 0 <= i < n && !HasRequiredKeys(rs[..n][i]);
        assert !HasRequiredKeys(rs[i]);
      }
    }
  }

  /** The error of a failed load is the one of the first bad record: nothing partial is returned. */
  lemma {:induction false} LoadFailsAtFirstBad(rs: seq<Record>, i: nat)
    requires i < |rs| && !HasRequiredKeys(rs[i])
    requires forall k :: 0 <= k < i ==> HasRequiredKeys(rs[k])
    ensures LoadRecords(rs) == Err(ToProduct(rs[i]).error)
  {
    var n := |rs| - 1;
    if i < n {
      LoadFailsAtFirstBad(rs[..n], i);
    } else {
      LoadsWhenAllGood(rs[..n]);
    }
  }

  lemma {:induction false} LoadsWhenAllGood(rs: seq<Record>)
    requires forall k :: 0 <= k < |rs| ==> HasRequiredKeys(rs[k])
    ensures LoadRecords(rs).Ok?
  {
    if |rs| > 0 {
      LoadsWhenAllGood(rs[..|rs| - 1]);
    }
  }

  /** Only `.csv` and `.json`, in any letter case, are accepted; anything else is refused by suffix. */
  lemma UnsupportedIff(path: string, records: seq<Record>)
    ensures Load(path, records).Err? && Load(path, records).error.UnsupportedFormat?
            <==> !Supported(path)
    ensures !Supported(path) ==> Load(path, records) == Err(UnsupportedFormat(Suffix(path)))
  {
    if Supported(path) {
      LoadNeverUnsupported(records);
    }
  }

  lemma {:induction false} LoadNeverUnsupported(rs: seq<Record>)
    ensures LoadRecords(rs).Err? ==> LoadRecords(rs).error.MissingKey?
  {
    if |rs| > 0 {
      LoadNeverUnsupported(rs[..|rs| - 1]);
    }
  }

  /** Characters without `c` appended after `s` do not move its last `c`. */
  lemma {:induction false} RFindSkips(s: string, t: string, c: char)
    requires c !in t
    ensures RFind(s + t, c) == RFind(s, c)
    decreases |t|
  {
    if |t| > 0 {
      var n := |t| - 1;
      assert (s + t)[..|s + t| - 1] == s + t[..n];
      assert (s + t)[|s + t| - 1] == t[n];
      assert t[n] in t && forall x :: x in t[..n] ==> x in t;
      RFindSkips(s, t[..n], c);
    } else {
      assert s + t == s;
    }
  }

  /** A name with an upper-case `.CSV` suffix is accepted, since the suffix is lower-cased first. */
  lemma UpperCaseSuffixAccepted(stem: string)
    requires stem != "" && '/' !in stem
    ensures Suffix(stem + ".CSV") == ".CSV" && Supported(stem + ".CSV")
  {
    var name := stem + ".CSV";
    assert '/' !in name by {
      assert forall t :: 0 <= t < |name| ==> name[t] == (if t < |stem| then stem[t] else ".CSV"[t - |stem|]);
    }
    FileNameOfName(name);
    assert name == (stem + ".") + "CSV";
    RFindSkips(stem + ".", "CSV", '.');
    assert RFind(stem + ".", '.') == |stem|;
    assert name[|stem|..] == ".CSV";
    assert Lower(".CSV") == ".csv";
  }

  /** A name whose only dot is its first character, such as `.csv`, has no suffix, so it is refused. */
  lemma DotFileRefused(ext: string)
    requires '.' !in ext && '/' !in ext
    ensures Suffix("." + ext) == "" && !Supported("." + ext)
  {
    if ext != "" {
      DotFileName(ext);
    }
  }

  /** `.<ext>` is its own name, and its last dot is its first character. */
  lemma DotFileName(ext: string)
    requires '.' !in ext && '/' !in ext && ext != ""
    ensures FileName("." + ext) == "." + ext && RFind("." + ext, '.') == 0
  {
    var name := "." + ext;
    assert '/' !in name by {
      assert forall t :: 0 < t < |name| ==> name[t] == ext[t - 1];
    }
    FileNameOfName(name);
    RFindSkips(".", ext, '.');
    assert RFind(".", '.') == 0;
  }

  /** A final `.` component, which `PurePath` drops, leaves the suffix alone: `prices.csv/.` is a CSV. */
  lemma SuffixIgnoresDotComponent(p: string)
    ensures Suffix(p + "/.") == Suffix(p)
    ensures Supported(p + "/.") == Supported(p)
  {
    FileNameDotComponent(p);
  }

  /** The loader loop, appending one product per record. */
  method BuildProducts(records: seq<Record>) returns (r: Result<seq<Product>, Error>)
    ensures r == LoadRecords(records)
  {
    var products: seq<Product> := [];
    var i := 0;
    while i < |records|
      invariant 0 <= i <= |records|
      invariant LoadRecords(records[..i]) == Ok(products)
    {
      assert records[..i + 1][..i] == records[..i];
      var p := ToProduct(records[i]);
      if p.Err? {
        assert LoadRecords(records[..i + 1]).Err?;
        LoadErrorPersists(records, i + 1);
        return Err(p.error);
      }
      products := products + [p.value];
      i := i + 1;
    }
    assert records[..i] == records;
    r := Ok(products);
  }

  /** Once a prefix fails, the whole load fails with the same error. */
  lemma {:induction false} LoadErrorPersists(rs: seq<Record>, n: nat)
    requires n <= |rs| && LoadRecords(rs[..n]).Err?
    ensures LoadRecords(rs) == LoadRecords(rs[..n])
    decreases |rs| - n
  {
    if n < |rs| {
      assert rs[..n + 1][..n] == rs[..n];
      LoadErrorPersists(rs, n + 1);
    } else {
      assert rs[..n] == rs;
    }
  }

  /** `load_price_list`: dispatch on the lower-cased suffix, then map every record. */
  method LoadPriceList(path: string, records: seq<Record>) returns (r: Result<seq<Product>, Error>)
    ensures r == Load(path, records)
  {
    var ext := Lower(Suffix(path));
    if ext == ".csv" {
      r := BuildProducts(records);
    } else if ext == ".json" {
      r := BuildProducts(records);
    } else {
      r := Err(UnsupportedFormat(Suffix(path)));
    }
  }

  // ---------------------------------------------------------------------------
  // Matching requested items against the price list

  /** A product matches a request when its code or description occurs in it, ignoring case. */
  predicate ProductMatches(request: string, p: Product)
  {
    var req := Lower(request);
    Contains(Lower(p.code), req) || Contains(Lower(p.description), req)
  }

  /** The products matching one request, in price-list order. */
  function MatchesFor(request: string, ps: seq<Product>): seq<Product>
  {
    if |ps| == 0 then []
    else MatchesFor(request, ps[..|ps| - 1])
         + (if ProductMatches(request, ps[|ps| - 1]) then [ps[|ps| - 1]] else [])
  }

  /** All matches: the matches of each request, one request after the other. */
  function AllMatches(requests: seq<string>, ps: seq<Product>): seq<Product>
  {
    if |requests| == 0 then []
    else AllMatches(requests[..|requests| - 1], ps) + MatchesFor(requests[|requests| - 1], ps)
  }

  /** The positions in `ps` of the products matching `request`, in increasing order. */
  function MatchPositions(request: string, ps: seq<Product>): seq<nat>
  {
    if |ps| == 0 then []
    else MatchPositions(request, ps[..|ps| - 1])
         + (if ProductMatches(request, ps[|ps| - 1]) then [|ps| - 1] else [])
  }

  /**
   * The matches of one request are exactly the matching products, listed by
   * strictly increasing price-list position.
   */
  lemma {:induction false} MatchesForInOrder(request: string, ps: seq<Product>)
    ensures var pos := MatchPositions(request, ps);
            && |pos| == |MatchesFor(request, ps)|
            && (forall k :: 0 <= k < |pos| ==> pos[k] < |ps| && MatchesFor(request, ps)[k] == ps[pos[k]])
            && (forall k, l :: 0 <= k < l < |pos| ==> pos[k] < pos[l])
            && (forall j :: 0 <= j < |ps| ==> (j in pos <==> ProductMatches(request, ps[j])))
  {
    if |ps| > 0 {
      var n := |ps| - 1;
      MatchesForInOrder(request, ps[..n]);
      assert forall j :: 0 <= j < n ==> ps[..n][j] == ps[j];
    }
  }

  /** A product occurs among one request's matches as often as in the list, if it matches, else never. */
  lemma {:induction false} MatchesForCount(request: string, ps: seq<Product>, p: Product)
    ensures multiset(MatchesFor(request, ps))[p] == if ProductMatches(request, p) then multiset(ps)[p] else 0
  {
    if |ps| > 0 {
      var n := |ps| - 1;
      MatchesForCount(request, ps[..n], p);
      assert ps == ps[..n] + [ps[n]];
    }
  }

  /** How many of the requests `p` matches. */
  function RequestsMatched(requests: seq<string>, p: Product): nat
  {
    if |requests| == 0 then 0
    else RequestsMatched(requests[..|requests| - 1], p)
         + (if ProductMatches(requests[|requests| - 1], p) then 1 else 0)
  }

  /** Duplicates are kept: a product appears once per request it matches, per copy in the list. */
  lemma {:induction false} AllMatchesCount(requests: seq<string>, ps: seq<Product>, p: Product)
    ensures multiset(AllMatches(requests, ps))[p] == RequestsMatched(requests, p) * multiset(ps)[p]
  {
    if |requests| > 0 {
      var n := |requests| - 1;
      var prev, last := AllMatches(requests[..n], ps), MatchesFor(requests[n], ps);
      assert AllMatches(requests, ps) == prev + last;
      assert multiset(prev + last) == multiset(prev) + multiset(last);
      AllMatchesCount(requests[..n], ps, p);
      MatchesForCount(requests[n], ps, p);
      var a := RequestsMatched(requests[..n], p);
      CountStep(a, multiset(ps)[p], ProductMatches(requests[n], p), multiset(prev)[p], multiset(last)[p]);
      assert multiset(AllMatches(requests, ps))[p] == multiset(prev)[p] + multiset(last)[p];
      assert RequestsMatched(requests, p) == if ProductMatches(requests[n], p) then a + 1 else a;
    } else {
      assert AllMatches(requests, ps) == [] && RequestsMatched(requests, p) == 0;
    }
  }

  /** The count after one more request: the earlier count plus the copies it matches. */
  lemma CountStep(a: nat, m: nat, matched: bool, x: nat, y: nat)
    requires x == a * m && y == (if matched then m else 0)
    ensures x + y == (if matched then a + 1 else a) * m
  {
    if matched {
      MulSucc(a, m);
    }
  }

  lemma MulSucc(a: nat, m: nat)
    ensures (a + 1) * m == a * m + m
  {
  }

  /** A product is returned iff it is in the list and matches some request. */
  lemma AllMatchesMembership(requests: seq<string>, ps: seq<Product>, p: Product)
    ensures p in AllMatches(requests, ps)
            <==> p in ps && exists i :: 0 <= i < |requests| && ProductMatches(requests[i], p)
  {
    AllMatchesCount(requests, ps, p);
    RequestsMatchedPositive(requests, p);
    PositiveProduct(RequestsMatched(requests, p), multiset(ps)[p]);
    assert p in AllMatches(requests, ps) <==> multiset(AllMatches(requests, ps))[p] > 0;
    assert p in ps <==> multiset(ps)[p] > 0;
  }

  lemma PositiveProduct(a: nat, b: nat)
    ensures a * b > 0 <==> a > 0 && b > 0
  {
    if a > 0 && b > 0 {
      assert a * b >= b by {
        MulAtLeast(a, b);
      }
    }
  }

  lemma {:induction false} MulAtLeast(a: nat, b: nat)
    requires a > 0
    ensures a * b >= b
  {
    if a > 1 {
      MulAtLeast(a - 1, b);
      MulSucc(a - 1, b);
    }
  }

  lemma {:induction false} RequestsMatchedPositive(requests: seq<string>, p: Product)
    ensures RequestsMatched(requests, p) > 0
            <==> exists i :: 0 <= i < |requests| && ProductMatches(requests[i], p)
  {
    if |requests| > 0 {
      var n := |requests| - 1;
      RequestsMatchedPositive(requests[..n], p);
      assert forall i :: 0 <= i < n ==> requests[..n][i] == requests[i];
    }
  }

  /** The result holds at most one entry per pair of request and product. */
  lemma {:induction false} AllMatchesBound(requests: seq<string>, ps: seq<Product>)
    ensures |AllMatches(requests, ps)| <= |requests| * |ps|
  {
    if |requests| > 0 {
      var n := |requests| - 1;
      AllMatchesBound(requests[..n], ps);
      MatchesForBound(requests[n], ps);
      assert (n + 1) * |ps| == n * |ps| + |ps|;
    }
  }

  lemma {:induction false} MatchesForBound(request: string, ps: seq<Product>)
    ensures |MatchesFor(request, ps)| <= |ps|
  {
    if |ps| > 0 {
      MatchesForBound(request, ps[..|ps| - 1]);
    }
  }

  /**
   * Results are grouped by request in input order: the block contributed by
   * request `i` follows the blocks of requests `0..i` and is that request's matches.
   */
  lemma {:induction false} AllMatchesGrouped(requests: seq<string>, ps: seq<Product>, i: nat)
    requires i < |requests|
    ensures var lo, hi := |AllMatches(requests[..i], ps)|, |AllMatches(requests[..i + 1], ps)|;
            && lo <= hi <= |AllMatches(requests, ps)|
            && AllMatches(requests, ps)[lo..hi] == MatchesFor(requests[i], ps)
  {
    assert requests[..i + 1][..i] == requests[..i];
    AllMatchesPrefix(requests, ps, i + 1);
  }

  /** The matches of a prefix of the requests are a prefix of all matches. */
  lemma {:induction false} AllMatchesPrefix(requests: seq<string>, ps: seq<Product>, n: nat)
    requires n <= |requests|
    ensures AllMatches(requests[..n], ps) <= AllMatches(requests, ps)
    decreases |requests| - n
  {
    if n < |requests| {
      assert requests[..n + 1][..n] == requests[..n];
      AllMatchesPrefix(requests, ps, n + 1);
    } else {
      assert requests[..n] == requests;
    }
  }

  /** Requests that agree up to letter case give the same matches. */
  lemma {:induction false} MatchingIgnoresCase(r1: seq<string>, r2: seq<string>, ps: seq<Product>)
    requires |r1| == |r2| && forall i :: 0 <= i < |r1| ==> Lower(r1[i]) == Lower(r2[i])
    ensures AllMatches(r1, ps) == AllMatches(r2, ps)
  {
    if |r1| > 0 {
      var n := |r1| - 1;
      MatchingIgnoresCase(r1[..n], r2[..n], ps);
      MatchesForIgnoresCase(r1[n], r2[n], ps);
    }
  }

  lemma {:induction false} MatchesForIgnoresCase(a: string, b: string, ps: seq<Product>)
    requires Lower(a) == Lower(b)
    ensures MatchesFor(a, ps) == MatchesFor(b, ps)
  {
    if |ps| > 0 {
      MatchesForIgnoresCase(a, b, ps[..|ps| - 1]);
    }
  }

  /** A product with an empty code matches every request, since `"" in s` always holds. */
  lemma EmptyCodeMatchesEverything(request: string, p: Product)
    requires p.code == ""
    ensures ProductMatches(request, p)
  {
    assert Lower(p.code) == "";
    EmptyContained(Lower(request));
  }

  /** `find_matching_products`: nested loops over requests and products, appending every hit. */
  method FindMatchingProducts(requests: seq<string>, products: seq<Product>) returns (matches: seq<Product>)
    ensures matches == AllMatches(requests, products)
  {
    matches := [];
    var i := 0;
    while i < |requests|
      invariant 0 <= i <= |requests|
      invariant matches == AllMatches(requests[..i], products)
    {
      var normalized := Lower(requests[i]);
      var j := 0;
      while j < |products|
        invariant 0 <= j <= |products|
        invariant matches == AllMatches(requests[..i], products) + MatchesFor(requests[i], products[..j])
      {
        var p := products[j];
        if Contains(Lower(p.code), normalized) || Contains(Lower(p.description), normalized) {
          matches := matches + [p];
        }
        assert products[..j + 1][..j] == products[..j];
        j := j + 1;
      }
      assert products[..j] == products;
      assert requests[..i + 1][..i] == requests[..i];
      i := i + 1;
    }
    assert requests[..i] == requests;
  }

  // ---------------------------------------------------------------------------
  // The tender loop of main

  /** The offer `create_offer_for_tender` is called with. */
  datatype Offer = Offer(url: string, products: seq<Product>)

  /** The offers made for `tenders`, where `itemsOf` extracts each tender's requested items. */
  function Offers(tenders: seq<string>, itemsOf: string -> seq<string>, ps: seq<Product>): seq<Offer>
  {
    if |tenders| == 0 then []
    else
      var t := tenders[|tenders| - 1];
      var matched := AllMatches(itemsOf(t), ps);
      Offers(tenders[..|tenders| - 1], itemsOf, ps) + (if |matched| > 0 then [Offer(t, matched)] else [])
  }

  /** The extraction as written: every tender's `requested_items` is the empty list. */
  function NoItems(url: string): seq<string>
  {
    []
  }

  /** Without requested items nothing matches, so no offer is ever created. */
  lemma {:induction false} NoItemsNoOffers(tenders: seq<string>, ps: seq<Product>)
    ensures Offers(tenders, NoItems, ps) == []
  {
    if |tenders| > 0 {
      NoItemsNoOffers(tenders[..|tenders| - 1], ps);
    }
  }

  /** An offer is made for a tender exactly when it has at least one match, carrying all of them. */
  lemma {:induction false} OffersAreMatchedTenders(tenders: seq<string>, itemsOf: string -> seq<string>, ps: seq<Product>)
    ensures forall o :: o in Offers(tenders, itemsOf, ps)
              ==> o.url in tenders && o.products == AllMatches(itemsOf(o.url), ps) && |o.products| > 0
    ensures forall t :: t in tenders && |AllMatches(itemsOf(t), ps)| > 0
              ==> Offer(t, AllMatches(itemsOf(t), ps)) in Offers(tenders, itemsOf, ps)
  {
    if |tenders| > 0 {
      var n := |tenders| - 1;
      OffersAreMatchedTenders(tenders[..n], itemsOf, ps);
      assert tenders == tenders[..n] + [tenders[n]];
    }
  }

  /** The tender loop of main: offer only when the match list is non-empty. */
  method OfferTenders(tenders: seq<string>, itemsOf: string -> seq<string>, products: seq<Product>)
    returns (offers: seq<Offer>)
    ensures offers == Offers(tenders, itemsOf, products)
  {
    offers := [];
    for i := 0 to |tenders|
      invariant offers == Offers(tenders[..i], itemsOf, products)
    {
      assert tenders[..i + 1][..i] == tenders[..i];
      var matched := FindMatchingProducts(itemsOf(tenders[i]), products);
      if |matched| > 0 {
        offers := offers + [Offer(tenders[i], matched)];
      }
    }
    assert tenders[..|tenders|] == tenders;
  }

  /** `os.environ.get(key)` followed by Python truthiness. */
  predicate Present(env: map<string, string>, key: string)
  {
    key in env && env[key] != ""
  }

  /**
   * `main`: both credentials must be set and non-empty, then the price list is
   * loaded, then the tenders are processed. Logging in and listing tenders are
   * the site's; the tender URLs are given.
   */
  method Start(env: map<string, string>, pricePath: string, records: seq<Record>,
               tenders: seq<string>, itemsOf: string -> seq<string>)
    returns (r: Result<seq<Offer>, Error>)
    ensures !(Present(env, "WHEREX_USERNAME") && Present(env, "WHEREX_PASSWORD"))
            ==> r == Err(MissingCredentials)
    ensures Present(env, "WHEREX_USERNAME") && Present(env, "WHEREX_PASSWORD") && Load(pricePath, records).Err?
            ==> r == Err(Load(pricePath, records).error)
    ensures Present(env, "WHEREX_USERNAME") && Present(env, "WHEREX_PASSWORD") && Load(pricePath, records).Ok?
            ==> r == Ok(Offers(tenders, itemsOf, Load(pricePath, records).value))
  {
    if !Present(env, "WHEREX_USERNAME") || !Present(env, "WHEREX_PASSWORD") {
      return Err(MissingCredentials);
    }
    var loaded := LoadPriceList(pricePath, records);
    if loaded.Err? {
      return Err(loaded.error);
    }
    var offers := OfferTenders(tenders, itemsOf, loaded.value);
    r := Ok(offers);
  }
}
