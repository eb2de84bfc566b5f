/**
 * The session cookie sent with the renew request (raw_renew.js:48-49).
 *
 * Each `set-cookie` entry of the login response is cut at its first ';'
 * (its attributes are dropped) and the pieces are joined with "; ". A
 * missing header, or a joined value that is the empty string, is a login
 * error.
 */
module Cookie {
  import opened Results

  /** The separator of `join('; ')`, and of a `Cookie` request header. */
  const Separator: string := "; "

  /** `entry.split(';')[0]`: the part of a set-cookie entry before its first ';'. */
  function NameValue(entry: string): (p: string)
    ensures p <= entry
    ensures ';' !in p
    ensures p == entry || entry[|p|] == ';'
  {
    if entry == [] || entry[0] == ';' then [] else [entry[0]] + NameValue(entry[1..])
  }

  /** The three properties of `NameValue` determine it: it is the longest prefix without ';'. */
  lemma {:induction false} NameValueUnique(entry: string, p: string)
    requires p <= entry && ';' !in p
    requires p == entry || entry[|p|] == ';'
    ensures NameValue(entry) == p
  {
    if p != [] {
      assert p[0] == entry[0];
      NameValueUnique(entry[1..], p[1..]);
      assert p == [p[0]] + p[1..];
    }
  }

  /** An entry `p;rest` whose name-value pair `p` holds no ';' is cut to `p`. */
  lemma NameValueCut(p: string, rest: string)
    requires ';' !in p
    ensures NameValue(p + ";" + rest) == p
  {
    var entry := p + ";" + rest;
    assert entry[..|p|] == p && entry[|p|] == ';';
    NameValueUnique(entry, p);
  }

  /** `entries.map(c => c.split(';')[0])` */
  function Pieces(entries: seq<string>): (ps: seq<string>)
    ensures |ps| == |entries|
    ensures forall i :: 0 <= i < |entries| ==> ps[i] == NameValue(entries[i])
  {
    if entries == [] then [] else [NameValue(entries[0])] + Pieces(entries[1..])
  }

  /** `Array.prototype.join('; ')`: the pieces, in order, with the separator between neighbours. */
  function Join(pieces: seq<string>): (h: string)
    ensures h == "" <==> |pieces| == 0 || (|pieces| == 1 && pieces[0] == "")
  {
    if |pieces| == 0 then ""
    else if |pieces| == 1 then pieces[0]
    else pieces[0] + Separator + Join(pieces[1..])
  }

  /**
   * `String.prototype.split('; ')`: the text between occurrences of the
   * separator, scanning from the left; the empty string splits into [""].
   */
  function Split(h: string): (pieces: seq<string>)
    ensures |pieces| >= 1
    decreases |h|
  {
    if |h| >= 2 && h[..2] == Separator then [""] + Split(h[2..])
    else if h == [] then [""]
    else
      var rest := Split(h[1..]);
      [[h[0]] + rest[0]] + rest[1..]
  }

  /** Text without ';' cannot hold a separator, so it joins the first piece of what follows it. */
  lemma {:induction false} SplitAfterPlain(p: string, t: string)
    requires ';' !in p
    ensures Split(p + t) == [p + Split(t)[0]] + Split(t)[1..]
    decreases |p|
  {
    if p != [] {
      var rest := Split(p[1..] + t);
      assert p + t == [p[0]] + (p[1..] + t);
      assert (p + t)[1..] == p[1..] + t;
      SplitAfterPlain(p[1..], t);
      assert [p[0]] + (p[1..] + Split(t)[0]) == p + Split(t)[0];
    } else {
      assert p + t == t;
      var r := Split(t);
      assert p + r[0] == r[0];
      assert r == [r[0]] + r[1..];
    }
  }

  /** Splitting a joined header recovers its pieces, since no piece contains ';'. */
  lemma {:induction false} SplitJoin(pieces: seq<string>)
    requires |pieces| >= 1
    requires forall i :: 0 <= i < |pieces| ==> ';' !in pieces[i]
    ensures Split(Join(pieces)) == pieces
  {
    if |pieces| == 1 {
      SplitAfterPlain(pieces[0], "");
      assert pieces[0] + "" == pieces[0];
    } else {
      var rest := Join(pieces[1..]);
      SplitJoin(pieces[1..]);
      assert (Separator + rest)[..2] == Separator && (Separator + rest)[2..] == rest;
      assert Split(Separator + rest) == [""] + pieces[1..];
      assert Join(pieces) == pieces[0] + (Separator + rest);
      SplitAfterPlain(pieces[0], Separator + rest);
      assert pieces[0] + "" == pieces[0];
    }
  }

  /**
   * The `Cookie` header built from the `set-cookie` entries of the login
   * response, or None where the script throws "no login cookie": the header
   * is missing, or its entries join to the empty string.
   */
  function Header(setCookie: Option<seq<string>>): (r: Option<string>)
    ensures setCookie.None? ==> r.None?
    ensures setCookie.Some? ==>
      (r.None? <==> |setCookie.value| == 0 || (|setCookie.value| == 1 && NameValue(setCookie.value[0]) == ""))
    ensures r.Some? ==> Split(r.value) == Pieces(setCookie.value)
  {
    match setCookie
    case None => None
    case Some(entries) =>
      var h := Join(Pieces(entries));
      if h == "" then None
      else
        SplitJoin(Pieces(entries));
        Some(h)
  }

  /**
   * The header holds one piece per entry, in the entries' order, each the
   * entry's prefix up to but excluding its first ';'.
   */
  lemma HeaderPieces(entries: seq<string>)
    requires Header(Some(entries)).Some?
    ensures var pieces := Split(Header(Some(entries)).value);
      && |pieces| == |entries|
      && forall i :: 0 <= i < |entries| ==>
           pieces[i] <= entries[i] && ';' !in pieces[i] &&
           (pieces[i] == entries[i] || entries[i][|pieces[i]|] == ';')
  {
  }

  /** Attributes are dropped and the pairs joined: two entries give "a=1; b=2". */
  lemma ExampleTwoEntries()
    ensures Header(Some(["a=1; Path=/", "b=2"])) == Some("a=1; b=2")
  {
    assert "a=1; Path=/" == "a=1" + ";" + " Path=/";
    NameValueCut("a=1", " Path=/");
    NameValueUnique("b=2", "b=2");
    assert Pieces(["a=1; Path=/", "b=2"]) == ["a=1", "b=2"];
    assert "a=1" + Separator + "b=2" == "a=1; b=2";
  }

  /** A single entry without attributes is sent unchanged. */
  lemma SingleEntry(entry: string)
    requires entry != "" && ';' !in entry
    ensures Header(Some([entry])) == Some(entry)
  {
    NameValueUnique(entry, entry);
    assert Pieces([entry]) == [entry];
  }

  /** The session cookie "sid=1", set without attributes, is sent as "sid=1". */
  lemma ExampleSessionCookie()
    ensures Header(Some(["sid=1"])) == Some("sid=1")
  {
    SingleEntry("sid=1");
  }

  /** An absent header, or an empty list of entries, yields no cookie. */
  lemma NoCookie()
    ensures Header(None) == None && Header(Some([])) == None
  {
  }
}
