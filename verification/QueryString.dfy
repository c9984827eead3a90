/** HttpConnection::PreParseGetParam (GateServer/src/httpconnection.cc): cutting the request target
    into the path and the query parameters. */
module QueryString {
  import opened Bytes
  import opened UrlCodec

  type Text = seq<byte>

  type Params = map<Text, Text>

  /** What the parser leaves in _get_url and _get_params, or a failed assertion of UrlDecode. */
  datatype Parsed = Aborted | Target(url: Text, params: Params)

  // std::string::npos; adding one gives 0, as it does for the unsigned original
  const NPOS: int := -1

  method Find(s: Text, c: byte) returns (pos: int)
    ensures pos == NPOS <==> c !in s
    ensures pos != NPOS ==> 0 <= pos < |s| && s[pos] == c && c !in s[..pos]
  {
    for i := 0 to |s|
      invariant c !in s[..i]
    {
      if s[i] == c {
        return i;
      }
      assert s[..i + 1] == s[..i] + [s[i]];
    }
    assert s[..|s|] == s;
    return NPOS;
  }

  // ----- the specification: split, bind, collect -----

  /** The part before the first c, and the part after it. */
  function Before(s: Text, c: byte): (b: Text)
    ensures b <= s && c !in b && (c in s ==> |b| < |s| && s[|b|] == c) && (c !in s ==> b == s)
  {
    if s == [] || s[0] == c then [] else [s[0]] + Before(s[1..], c)
  }

  function After(s: Text, c: byte): Text
    requires c in s
  {
    s[|Before(s, c)| + 1..]
  }

  function Split(s: Text, c: byte): (pieces: seq<Text>)
    decreases |s|
  {
    if c in s then [Before(s, c)] + Split(After(s, c), c) else [s]
  }

  datatype Binding = NoBinding | BadEscape | Bind(key: Text, value: Text)

  /** One piece: ignored without '=', otherwise split at the first one and decoded. */
  function BindingOf(piece: Text): Binding {
    if EQUALS !in piece then NoBinding
    else
      var key, value := Decode(Before(piece, EQUALS)), Decode(After(piece, EQUALS));
      if key.Abort? || value.Abort? then BadEscape else Bind(key.s, value.s)
  }

  datatype Collected = Failed | Bound(params: Params)

  function Collect(pieces: seq<Text>, params: Params): Collected {
    if pieces == [] then Bound(params)
    else
      match BindingOf(pieces[0])
      case NoBinding => Collect(pieces[1..], params)
      case BadEscape => Failed
      case Bind(key, value) => Collect(pieces[1..], params[key := value])
  }

  function ParseTarget(uri: Text): Parsed {
    if QUESTION !in uri then Target(uri, map[])
    else
      match Collect(Split(After(uri, QUESTION), AMPERSAND), map[])
      case Failed => Aborted
      case Bound(params) => Target(Before(uri, QUESTION), params)
  }

  lemma FirstOccurrence(s: Text, c: byte, pos: nat)
    requires pos < |s| && s[pos] == c && c !in s[..pos]
    ensures Before(s, c) == s[..pos] && c in s && After(s, c) == s[pos + 1..]
  {
    var b := Before(s, c);
    assert forall i :: 0 <= i < pos ==> s[..pos][i] != c;
    assert forall i :: 0 <= i < |b| ==> b[i] != c;
  }

  /** The do-while loop over a shrinking query string. */
  method PreParseGetParam(target: Text) returns (result: Parsed)
    ensures result == ParseTarget(target)
  {
    var uri := target;
    var queryPos := Find(uri, QUESTION);
    if queryPos == NPOS {
      return Target(uri, map[]);
    }
    FirstOccurrence(uri, QUESTION, queryPos);
    var getUrl := uri[..queryPos];
    var queryString := uri[queryPos + 1..];
    var getParams: Params := map[];
    ghost var whole := Collect(Split(queryString, AMPERSAND), getParams);
    var more := true;
    while more
      invariant more ==> whole == Collect(Split(queryString, AMPERSAND), getParams)
      invariant !more ==> whole == Bound(getParams)
      decreases more, |queryString|
    {
      var pos := Find(queryString, AMPERSAND);
      var pairStr := if pos == NPOS then queryString else queryString[..pos];
      if pos != NPOS {
        FirstOccurrence(queryString, AMPERSAND, pos);
      }
      assert Split(queryString, AMPERSAND)[0] == pairStr;
      var eqPos := Find(pairStr, EQUALS);
      if eqPos != NPOS {
        FirstOccurrence(pairStr, EQUALS, eqPos);
        var key := UrlDecode(pairStr[..eqPos]);
        var value := UrlDecode(pairStr[eqPos + 1..]);
        if key.Abort? || value.Abort? {
          return Aborted;
        }
        getParams := getParams[key.s := value.s];
      }
      queryString := queryString[pos + 1..];
      more := pos != NPOS;
    }
    result := Target(getUrl, getParams);
  }

  // ----- the round trip -----

  /** The pieces joined with '&'. */
  function Join(pieces: seq<Text>): Text
    requires pieces != []
  {
    if |pieces| == 1 then pieces[0] else pieces[0] + [AMPERSAND] + Join(pieces[1..])
  }

  lemma {:induction false} SplitInvertsJoin(pieces: seq<Text>)
    requires pieces != [] && forall i :: 0 <= i < |pieces| ==> AMPERSAND !in pieces[i]
    ensures Split(Join(pieces), AMPERSAND) == pieces
  {
    if |pieces| > 1 {
      var q := Join(pieces);
      assert q[..|pieces[0]|] == pieces[0] && q[|pieces[0]| + 1..] == Join(pieces[1..]);
      FirstOccurrence(q, AMPERSAND, |pieces[0]|);
      SplitInvertsJoin(pieces[1..]);
    }
  }

  function EncodePair(p: (Text, Text)): Text {
    Encoded(p.0) + [EQUALS] + Encoded(p.1)
  }

  function EncodedPairs(ps: seq<(Text, Text)>): (pieces: seq<Text>)
    ensures |pieces| == |ps|
  {
    seq(|ps|, i requires 0 <= i < |ps| => EncodePair(ps[i]))
  }

  /** The pairs joined with '&'. */
  function JoinPairs(ps: seq<(Text, Text)>): Text {
    if ps == [] then [] else Join(EncodedPairs(ps))
  }

  /** The map in which the last binding of each key wins. */
  function LastWins(ps: seq<(Text, Text)>): Params {
    if ps == [] then map[] else LastWins(ps[..|ps| - 1])[ps[|ps| - 1].0 := ps[|ps| - 1].1]
  }

  lemma PairIsClean(p: (Text, Text))
    ensures AMPERSAND !in EncodePair(p)
    ensures BindingOf(EncodePair(p)) == Bind(p.0, p.1)
  {
    EncodedIsClean(p.0);
    EncodedIsClean(p.1);
    var piece := EncodePair(p);
    assert piece[..|Encoded(p.0)|] == Encoded(p.0);
    FirstOccurrence(piece, EQUALS, |Encoded(p.0)|);
    DecodeInvertsEncode(p.0);
    DecodeInvertsEncode(p.1);
  }

  lemma SplitOfJoin(ps: seq<(Text, Text)>)
    requires ps != []
    ensures Split(JoinPairs(ps), AMPERSAND) == EncodedPairs(ps)
  {
    forall i | 0 <= i < |ps| ensures AMPERSAND !in EncodedPairs(ps)[i] {
      PairIsClean(ps[i]);
    }
    SplitInvertsJoin(EncodedPairs(ps));
  }

  function Apply(params: Params, ps: seq<(Text, Text)>): Params
    decreases |ps|
  {
    if ps == [] then params else Apply(params[ps[0].0 := ps[0].1], ps[1..])
  }

  lemma {:induction false} CollectEncoded(ps: seq<(Text, Text)>, params: Params)
    ensures Collect(EncodedPairs(ps), params) == Bound(Apply(params, ps))
    decreases |ps|
  {
    if ps != [] {
      PairIsClean(ps[0]);
      assert EncodedPairs(ps)[1..] == EncodedPairs(ps[1..]);
      CollectEncoded(ps[1..], params[ps[0].0 := ps[0].1]);
    }
  }

  lemma {:induction false} ApplyIsLastWins(ps: seq<(Text, Text)>, done: seq<(Text, Text)>)
    ensures Apply(LastWins(done), ps) == LastWins(done + ps)
    decreases |ps|
  {
    if ps == [] {
      assert done + ps == done;
    } else {
      var done' := done + [ps[0]];
      assert done'[..|done'| - 1] == done;
      ApplyIsLastWins(ps[1..], done');
      assert done + ps == done' + ps[1..];
    }
  }

  /** For every path without '?' and every sequence of byte-string pairs, parsing the encoded target
      gives the path and the map in which the last binding of each key wins. */
  lemma QueryRoundTrip(path: Text, ps: seq<(Text, Text)>)
    requires QUESTION !in path
    ensures ParseTarget(path + [QUESTION] + JoinPairs(ps)) == Target(path, LastWins(ps))
  {
    var uri := path + [QUESTION] + JoinPairs(ps);
    assert uri[..|path|] == path && uri[|path| + 1..] == JoinPairs(ps);
    FirstOccurrence(uri, QUESTION, |path|);
    if ps == [] {
      var nothing: Text := [];
      assert Split(nothing, AMPERSAND) == [nothing] && BindingOf(nothing) == NoBinding;
      var pieces := [nothing];
      assert pieces[0] == nothing && Collect(pieces, map[]) == Collect(pieces[1..], map[]);
    } else {
      SplitOfJoin(ps);
      CollectEncoded(ps, map[]);
      ApplyIsLastWins(ps, []);
      assert [] + ps == ps;
    }
  }

  // ----- arbitrary targets -----

  /** What one piece of a query means: nothing without '='; otherwise what stands before the first '=' and
      what stands after it are decoded, and fail if one of them does. */
  lemma BindingIs(key: Text, value: Text)
    requires EQUALS !in key
    ensures BindingOf(key) == NoBinding
    ensures BindingOf(key + [EQUALS] + value)
            == if Decode(key) == Abort || Decode(value) == Abort then BadEscape else Bind(Decode(key).s, Decode(value).s)
  {
    var piece := key + [EQUALS] + value;
    assert piece[..|key|] == key && piece[|key| + 1..] == value;
    FirstOccurrence(piece, EQUALS, |key|);
  }

  ghost predicate SomeBad(pieces: seq<Text>) {
    exists i :: 0 <= i < |pieces| && BindingOf(pieces[i]).BadEscape?
  }

  /** Piece i is the last that binds its key, and binds it to v. */
  ghost predicate BindsLast(pieces: seq<Text>, i: int, k: Text, v: Text) {
    && 0 <= i < |pieces| && BindingOf(pieces[i]) == Bind(k, v)
    && forall j :: i < j < |pieces| ==> !(BindingOf(pieces[j]).Bind? && BindingOf(pieces[j]).key == k)
  }

  /** No piece binds the key. */
  ghost predicate BindsNot(pieces: seq<Text>, k: Text) {
    forall j :: 0 <= j < |pieces| ==> !(BindingOf(pieces[j]).Bind? && BindingOf(pieces[j]).key == k)
  }

  lemma {:induction false} CollectFailsIff(pieces: seq<Text>, params: Params)
    ensures Collect(pieces, params) == Failed <==> SomeBad(pieces)
    decreases |pieces|
  {
    if pieces != [] && !BindingOf(pieces[0]).BadEscape? {
      var b := BindingOf(pieces[0]);
      CollectFailsIff(pieces[1..], if b.Bind? then params[b.key := b.value] else params);
      if SomeBad(pieces) {
        var i :| 0 <= i < |pieces| && BindingOf(pieces[i]).BadEscape?;
        assert BindingOf(pieces[1..][i - 1]).BadEscape?;
      }
    }
  }

  lemma {:induction false} CollectGets(pieces: seq<Text>, params: Params, k: Text, v: Text)
    requires !SomeBad(pieces)
    ensures Collect(pieces, params).Bound?
    ensures (k in Collect(pieces, params).params && Collect(pieces, params).params[k] == v)
            <==> (exists i :: BindsLast(pieces, i, k, v)) || (BindsNot(pieces, k) && k in params && params[k] == v)
    decreases |pieces|
  {
    CollectFailsIff(pieces, params);
    if pieces != [] {
      var b, rest := BindingOf(pieces[0]), pieces[1..];
      assert forall j :: 0 <= j < |rest| ==> rest[j] == pieces[j + 1];
      assert !SomeBad(rest);
      CollectGets(rest, if b.Bind? then params[b.key := b.value] else params, k, v);
      if i :| BindsLast(pieces, i, k, v) {
        assert i > 0 ==> BindsLast(rest, i - 1, k, v);
      }
      if i :| BindsLast(rest, i, k, v) {
        assert BindsLast(pieces, i + 1, k, v);
      }
      assert BindsNot(pieces, k) <==> BindsNot(rest, k) && !(b.Bind? && b.key == k);
      assert BindsNot(rest, k) && b.Bind? && b.key == k && b.value == v ==> BindsLast(pieces, 0, k, v);
    }
  }

  /** The last piece that binds k binds it to v. */
  ghost predicate Gives(pieces: seq<Text>, k: Text, v: Text) {
    exists i :: BindsLast(pieces, i, k, v)
  }

  ghost predicate AsGiven(pieces: seq<Text>, params: Params) {
    forall k, v :: Gives(pieces, k, v) <==> k in params && params[k] == v
  }

  lemma TargetSplits(path: Text, pieces: seq<Text>)
    requires QUESTION !in path
    requires pieces != [] && forall i :: 0 <= i < |pieces| ==> AMPERSAND !in pieces[i]
    ensures ParseTarget(path + [QUESTION] + Join(pieces))
            == match Collect(pieces, map[]) case Failed => Aborted case Bound(params) => Target(path, params)
  {
    var uri := path + [QUESTION] + Join(pieces);
    assert uri[..|path|] == path && uri[|path| + 1..] == Join(pieces);
    FirstOccurrence(uri, QUESTION, |path|);
    SplitInvertsJoin(pieces);
  }

  /** A target without '?' is the path, and there are no parameters. Otherwise the path ends at the first
      '?'; the parser fails if and only if a piece of the query is badly escaped, and else a key has the
      value that the last piece that binds it gives. */
  lemma QueryMeans(path: Text, pieces: seq<Text>)
    requires QUESTION !in path
    requires pieces != [] && forall i :: 0 <= i < |pieces| ==> AMPERSAND !in pieces[i]
    ensures ParseTarget(path) == Target(path, map[])
    ensures var r := ParseTarget(path + [QUESTION] + Join(pieces));
            if SomeBad(pieces) then r == Aborted else r.Target? && r.url == path && AsGiven(pieces, r.params)
  {
    TargetSplits(path, pieces);
    CollectFailsIff(pieces, map[]);
    if !SomeBad(pieces) {
      forall k, v ensures Gives(pieces, k, v) <==> k in Collect(pieces, map[]).params && Collect(pieces, map[]).params[k] == v {
        CollectGets(pieces, map[], k, v);
      }
    }
  }
}
