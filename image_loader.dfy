/** The image loader (lib/image-loader.js): a site-relative image path gets the requested
    width and quality appended as the query "w=…&q=…"; any other address is used as it
    is. */
module ImageLoader {
  import opened Wrappers
  import opened Text

  /** The pair `params.append(name, n.toString())` adds when `n` is truthy, or nothing. */
  function Param(name: string, n: Option<int>): (r: seq<string>)
    ensures Truthy(n) ==> r == [name + "=" + IntToString(n.value)]
    ensures !Truthy(n) ==> r == []
  {
    if Truthy(n) then [name + "=" + IntToString(n.value)] else []
  }

  /** `params.toString()`: the appended pairs, width before quality, joined by "&"; empty
      exactly when neither was given. */
  function QueryString(width: Option<int>, quality: Option<int>): (r: string)
    ensures r == "" <==> !Truthy(width) && !Truthy(quality)
    ensures '?' !in r
  {
    var pairs := Param("w", width) + Param("q", quality);
    PairsHaveNo(width, quality, '?');
    if |pairs| == 0 then "" else
      assert |Join(pairs, "&")| >= |pairs[0]| > 0;
      NoCharInJoin(pairs, "&", '?');
      Join(pairs, "&")
  }

  /** `cloudFrontLoader({ src, width, quality })`. */
  function CloudFrontLoader(src: string, width: Option<int>, quality: Option<int>): (r: string)
    ensures !StartsWith(src, "/") ==> r == src
    ensures StartsWith(src, "/") && QueryString(width, quality) != "" ==>
      r == src + "?" + QueryString(width, quality)
    ensures QueryString(width, quality) == "" ==> r == src
    ensures |src| <= |r| && r[..|src|] == src
  {
    if !StartsWith(src, "/") then src
    else
      var query := QueryString(width, quality);
      if query != "" then src + "?" + query else src
  }

  /** The query part of an address: what follows its first "?", or nothing. */
  function QueryOf(url: string): (r: string)
  {
    var parts := SplitOn(url, '?');
    if |parts| > 1 then parts[1] else ""
  }

  /** `new URLSearchParams(query).get(name)`, read as an integer: the value of the first
      "name=value" pair, or `None` when there is none. */
  function GetParam(query: string, name: string): (r: Option<int>)
  {
    ReadField(SplitOn(query, '&'), name)
  }

  /** The value of the first of the fields that is a "name=value" pair, read as an
      integer. */
  function ReadField(fields: seq<string>, name: string): (r: Option<int>)
  {
    match FindValue(fields, name + "=")
    case Some(v) => ParseInt(v)
    case None => None
  }

  /** What follows the key in the first field that starts with it. */
  function FindValue(fields: seq<string>, key: string): (r: Option<string>)
    ensures r.None? <==> forall i :: 0 <= i < |fields| ==> !StartsWith(fields[i], key)
  {
    if |fields| == 0 then None
    else if StartsWith(fields[0], key) then
      Some(fields[0][|key|..])
    else FindValue(fields[1..], key)
  }

  /** Reading the loader's address back: the path is everything before the "?", and the
      "w" and "q" parameters give back the width and the quality exactly when they were
      truthy. */
  lemma LoaderRoundTrip(src: string, width: Option<int>, quality: Option<int>)
    requires StartsWith(src, "/") && '?' !in src
    ensures SplitOn(CloudFrontLoader(src, width, quality), '?')[0] == src
    ensures GetParam(QueryOf(CloudFrontLoader(src, width, quality)), "w") == (if Truthy(width) then width else None)
    ensures GetParam(QueryOf(CloudFrontLoader(src, width, quality)), "q") == (if Truthy(quality) then quality else None)
  {
    var r := CloudFrontLoader(src, width, quality);
    var query := QueryString(width, quality);
    var pairs := Param("w", width) + Param("q", quality);
    PairsRead(width, quality);
    if query == "" {
      SplitOnWhole(src, '?');
      assert QueryOf(r) == "";
      assert SplitOn("", '&') == [""];
      assert pairs == [];
      assert FindValue([""], "w=") == None && FindValue([""], "q=") == None;
    } else {
      SplitOnField(src, '?', query);
      SplitOnWhole(query, '?');
      assert r == src + ['?'] + query;
      assert QueryOf(r) == query;
      PairsHaveNo(width, quality, '&');
      SplitOnJoin(pairs, '&');
      assert SplitOn(query, '&') == pairs;
    }
  }

  /** Each key is read back from the pairs as the value it was given, or as missing. */
  lemma PairsRead(width: Option<int>, quality: Option<int>)
    ensures ReadField(Param("w", width) + Param("q", quality), "w") == (if Truthy(width) then width else None)
    ensures ReadField(Param("w", width) + Param("q", quality), "q") == (if Truthy(quality) then quality else None)
  {
    var pairs := Param("w", width) + Param("q", quality);
    if Truthy(width) {
      ReadPair("w", "q", width);
      ParseIntOfIntToString(width.value);
    }
    if Truthy(quality) {
      ReadPair("q", "w", quality);
      ParseIntOfIntToString(quality.value);
    }
    if Truthy(width) && Truthy(quality) {
      assert pairs[1..] == Param("q", quality);
    }
  }

  /** A printed pair is found under its own name with its printed number, and is not
      taken for a pair of any other one-letter name. */
  lemma ReadPair(name: string, other: string, n: Option<int>)
    requires |name| == 1 && |other| == 1 && name != other
    requires Truthy(n)
    ensures FindValue(Param(name, n), name + "=") == Some(IntToString(n.value))
    ensures !StartsWith(Param(name, n)[0], other + "=")
  {
    var pair := name + "=" + IntToString(n.value);
    assert Param(name, n) == [pair];
    assert StartsWith(pair, name + "=") by {
      assert pair[..2] == name + "=";
    }
    assert pair[2..] == IntToString(n.value);
    assert FindValue([pair], name + "=") == Some(IntToString(n.value));
    assert name[0] != other[0] by {
      assert name == [name[0]] && other == [other[0]];
    }
    assert pair[0] == name[0] && (other + "=")[0] == other[0];
  }

  /** No character other than a letter, "=", "-" or a digit occurs in a pair. */
  lemma PairsHaveNo(width: Option<int>, quality: Option<int>, c: char)
    requires c == '?' || c == '&'
    ensures forall i :: 0 <= i < |Param("w", width) + Param("q", quality)| ==>
      c !in (Param("w", width) + Param("q", quality))[i]
  {
    if Truthy(width) { NumberHasNo(width.value, c); }
    if Truthy(quality) { NumberHasNo(quality.value, c); }
  }

  lemma NumberHasNo(n: int, c: char)
    requires c == '?' || c == '&'
    ensures c !in IntToString(n)
  {
    assert !IsDigit(c);
  }

  /** A character that is in neither the parts nor the separator is not in their join. */
  lemma {:induction false} NoCharInJoin(parts: seq<string>, sep: string, c: char)
    requires c !in sep
    requires forall i :: 0 <= i < |parts| ==> c !in parts[i]
    ensures c !in Join(parts, sep)
  {
    if |parts| > 1 {
      NoCharInJoin(parts[1..], sep, c);
    }
  }
}
