/** The `name=value&name=value` query strings the client builds and the
    routes read through `URLSearchParams.get`: pieces are split at "&",
    each piece at its first "=", empty pieces are skipped, and the first
    value of a repeated name wins. Percent-decoding and "+" as a space are
    not part of this model; the round trip below is stated for names and
    values free of "&" and "=". */
module QueryString {
  import opened JsString

  /** One `name=value` piece, split at its first "="; without "=", the value is empty. */
  function PairOf(piece: string): (string, string)
  {
    var kv := Split(piece, "=");
    (kv[0], if |kv| > 1 then Join(kv[1..], "=") else "")
  }

  /** The pieces read from left to right; an earlier name overrides a later one. */
  function ParsePairs(pieces: seq<string>): map<string, string>
  {
    if pieces == [] then map[]
    else if pieces[0] == "" then ParsePairs(pieces[1..])
    else
      var p := PairOf(pieces[0]);
      ParsePairs(pieces[1..])[p.0 := p.1]
  }

  /** The parameters of a query string, as `get` sees them. */
  function ParseQuery(query: string): map<string, string>
  {
    ParsePairs(Split(query, "&"))
  }

  function Piece(pair: (string, string)): string
  {
    pair.0 + "=" + pair.1
  }

  function Pieces(pairs: seq<(string, string)>): (r: seq<string>)
    ensures |r| == |pairs|
    ensures forall i :: 0 <= i < |pairs| ==> r[i] == Piece(pairs[i])
  {
    if pairs == [] then [] else [Piece(pairs[0])] + Pieces(pairs[1..])
  }

  /** A query string built from name/value pairs, as a template literal writes it. */
  function BuildQuery(pairs: seq<(string, string)>): string
  {
    Join(Pieces(pairs), "&")
  }

  /** Neither "&" nor "=". */
  predicate Plain(s: string)
  {
    '&' !in s && '=' !in s
  }

  predicate WellFormed(pairs: seq<(string, string)>)
  {
    (forall i :: 0 <= i < |pairs| ==> pairs[i].0 != [] && Plain(pairs[i].0) && Plain(pairs[i].1))
    && (forall i, j :: 0 <= i < j < |pairs| ==> pairs[i].0 != pairs[j].0)
  }

  /** A plain piece reads back as its name and value. */
  lemma PairOfPiece(name: string, value: string)
    requires Plain(name) && Plain(value)
    ensures PairOf(Piece((name, value))) == (name, value)
  {
    assert Join([name, value], "=") == Piece((name, value)) by {
      assert Join([name, value][1..], "=") == value;
    }
    SplitJoinChar([name, value], '=');
    var kv := Split(Piece((name, value)), "=");
    assert kv == [name, value];
    assert kv[1..] == [value];
  }

  lemma {:induction false} ParsePieces(pairs: seq<(string, string)>)
    requires WellFormed(pairs)
    ensures forall i :: 0 <= i < |pairs| ==>
      pairs[i].0 in ParsePairs(Pieces(pairs)) && ParsePairs(Pieces(pairs))[pairs[i].0] == pairs[i].1
    ensures forall k :: k in ParsePairs(Pieces(pairs)) ==> exists i :: 0 <= i < |pairs| && pairs[i].0 == k
  {
    if pairs != [] {
      var rest := pairs[1..];
      assert WellFormed(rest) by {
        forall i | 0 <= i < |rest| ensures rest[i] == pairs[i + 1] { }
      }
      ParsePieces(rest);
      var ps := Pieces(pairs);
      assert ps[0] == Piece(pairs[0]) && ps[0] != "";
      assert ps[1..] == Pieces(rest);
      PairOfPiece(pairs[0].0, pairs[0].1);
      var m := ParsePairs(ps);
      var m0 := ParsePairs(Pieces(rest));
      assert m == m0[pairs[0].0 := pairs[0].1];
      assert pairs == [pairs[0]] + rest;
      assert forall i :: 0 <= i < |rest| ==> rest[i].0 != pairs[0].0 by {
        forall i | 0 <= i < |rest| ensures rest[i].0 != pairs[0].0 {
          assert rest[i] == pairs[i + 1];
        }
      }
      ConsValues(pairs[0], rest, m0, m);
      ConsKeys(pairs[0], rest, m0, m);
    }
  }

  /** Adding the first pair to the map of the others keeps every later value. */
  lemma ConsValues(p: (string, string), rest: seq<(string, string)>, m0: map<string, string>, m: map<string, string>)
    requires m == m0[p.0 := p.1]
    requires forall i :: 0 <= i < |rest| ==> rest[i].0 != p.0
    requires forall i :: 0 <= i < |rest| ==> rest[i].0 in m0 && m0[rest[i].0] == rest[i].1
    ensures forall i :: 0 <= i < |[p] + rest| ==> ([p] + rest)[i].0 in m && m[([p] + rest)[i].0] == ([p] + rest)[i].1
  {
    var pairs := [p] + rest;
    forall i | 0 <= i < |pairs| ensures pairs[i].0 in m && m[pairs[i].0] == pairs[i].1 {
      if i > 0 {
        assert pairs[i] == rest[i - 1];
      }
    }
  }

  /** Every key of the map with the first pair added comes from some pair. */
  lemma ConsKeys(p: (string, string), rest: seq<(string, string)>, m0: map<string, string>, m: map<string, string>)
    requires m == m0[p.0 := p.1]
    requires forall k :: k in m0 ==> exists i :: 0 <= i < |rest| && rest[i].0 == k
    ensures forall k :: k in m ==> exists i :: 0 <= i < |[p] + rest| && ([p] + rest)[i].0 == k
  {
    var pairs := [p] + rest;
    forall k | k in m ensures exists i :: 0 <= i < |pairs| && pairs[i].0 == k {
      if k == p.0 {
        assert pairs[0].0 == k;
      } else {
        var j :| 0 <= j < |rest| && rest[j].0 == k;
        assert pairs[j + 1].0 == k;
      }
    }
  }

  /** Parsing a built query string gives every pair back, and nothing else. */
  lemma QueryRoundTrip(pairs: seq<(string, string)>)
    requires |pairs| >= 1 && WellFormed(pairs)
    ensures forall i :: 0 <= i < |pairs| ==>
      pairs[i].0 in ParseQuery(BuildQuery(pairs)) && ParseQuery(BuildQuery(pairs))[pairs[i].0] == pairs[i].1
    ensures forall k :: k in ParseQuery(BuildQuery(pairs)) ==> exists i :: 0 <= i < |pairs| && pairs[i].0 == k
  {
    var ps := Pieces(pairs);
    forall i | 0 <= i < |ps| ensures '&' !in ps[i] {
      assert ps[i] == pairs[i].0 + "=" + pairs[i].1;
    }
    SplitJoinChar(ps, '&');
    assert Split(BuildQuery(pairs), "&") == ps;
    ParsePieces(pairs);
  }
}
