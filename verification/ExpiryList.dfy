/** PASTEBIN_EXPIRY_TIMES: the "Label:seconds" list, parsed and printed. */
module ExpiryList {
  import opened Lists
  import opened Numbers
  import opened Strings

  /** Label and Value; `label` is a Dafny keyword. */
  datatype ExpiryOption = ExpiryOption(name: string, value: string)

  predicate Quote(c: char) { c == '"' || c == '\'' }

  function Clean(s: string): string {
    Trim(Trim(Trim(s, Space), Quote), Space)
  }

  predicate Seconds(value: string) {
    ParseInt(value).Ok? && ParseInt(value).n >= 0
  }

  /** What one cleaned piece adds to the list: its option, or nothing when malformed. */
  function Entry(e: string): seq<ExpiryOption> {
    var idx := Index(e, ':');
    if idx == 0 || idx >= |e| - 1 then []
    else
      var value := Trim(e[idx + 1..], Space);
      if Seconds(value) then [ExpiryOption(Trim(e[..idx], Space), value)] else []
  }

  function Piece(piece: string): seq<ExpiryOption> {
    Entry(Clean(piece))
  }

  function Kept(pieces: seq<string>): seq<ExpiryOption> {
    FlatMap(Piece, pieces)
  }

  /** The specification; the empty list stands for nil. */
  function Parse(raw: string): seq<ExpiryOption> {
    var r := Clean(raw);
    if r == "" then [] else Kept(Split(r, ','))
  }

  method ParseExpiryTimes(raw: string) returns (out: seq<ExpiryOption>)
    ensures out == Parse(raw)
  {
    var r := Clean(raw);
    if r == "" { return []; }
    out := [];
    var pieces := Split(r, ',');
    for i := 0 to |pieces|
      invariant out + Kept(pieces[i..]) == Kept(pieces)
    {
      KeptStep(pieces, i, out);
      var o := ParseEntry(Clean(pieces[i]));
      out := out + o;
    }
  }

  /** The body of the loop: `[]` where it skips the entry. */
  method ParseEntry(entry: string) returns (o: seq<ExpiryOption>)
    ensures o == Entry(entry)
  {
    if entry == "" { return []; }
    var idx := Index(entry, ':');
    if idx == |entry| || idx == 0 || idx == |entry| - 1 { return []; }
    var name, valueStr := Trim(entry[..idx], Space), Trim(entry[idx + 1..], Space);
    var n := ParseInt(valueStr);
    if !n.Ok? || n.n < 0 { return []; }
    return [ExpiryOption(name, valueStr)];
  }

  lemma KeptStep(pieces: seq<string>, i: nat, out: seq<ExpiryOption>)
    requires i < |pieces|
    ensures out + Kept(pieces[i..]) == out + Piece(pieces[i]) + Kept(pieces[i + 1..])
  {
    assert pieces[i..][1..] == pieces[i + 1..];
  }

  function Text(o: ExpiryOption): string {
    o.name + [':'] + o.value
  }

  function Texts(os: seq<ExpiryOption>): (ts: seq<string>)
    ensures |ts| == |os| && forall i :: 0 <= i < |os| ==> ts[i] == Text(os[i])
  {
    seq(|os|, i requires 0 <= i < |os| => Text(os[i]))
  }

  /** The list in the documented format. */
  function Print(os: seq<ExpiryOption>): string {
    if os == [] then "" else Join(Texts(os), ',')
  }

  /** A label that stands on its own, and seconds. */
  predicate Plain(o: ExpiryOption) {
    && o.name != "" && Bare(o.name, Space) && !Quote(o.name[0])
    && ':' !in o.name && Seconds(o.value)
  }

  predicate Good(o: ExpiryOption) { Plain(o) && ',' !in o.name }

  predicate AllGood(os: seq<ExpiryOption>) {
    forall i :: 0 <= i < |os| ==> Good(os[i])
  }

  // What is kept.

  lemma SecondsArePlain(value: string)
    requires Seconds(value)
    ensures value != "" && forall i :: 0 <= i < |value| ==>
      !Space(value[i]) && !Quote(value[i]) && value[i] != ',' && value[i] != ':'
  {
    ParsedIsPlain(value);
  }

  lemma CleanIsInside(s: string) returns (lo: nat, hi: nat)
    ensures lo <= hi <= |s| && Clean(s) == s[lo..hi] && Bare(Clean(s), Space)
  {
    var a, b := TrimIsBare(s, Space);
    var t := s[a..b];
    var c, d := TrimIsBare(t, Quote);
    Inside(s, a, b, c, d);
    var u := s[a + c..a + d];
    var i, j := TrimIsBare(u, Space);
    Inside(s, a + c, a + d, i, j);
    lo, hi := a + c + i, a + c + j;
  }

  lemma Inside(s: string, a: nat, b: nat, c: nat, d: nat)
    requires a <= b <= |s| && c <= d <= b - a
    ensures s[a..b][c..d] == s[a + c..a + d]
  {
    assert forall k :: 0 <= k < d - c ==> s[a..b][c..d][k] == s[a + c..a + d][k];
  }

  /** An entry that is kept has a label that is not empty and holds no colon, and a
      count of seconds; both stood in the text, around the first colon. */
  lemma EntryIsSound(e: string)
    requires Bare(e, Space) && Entry(e) != []
    ensures Entry(e) == [Entry(e)[0]] && Entry(e)[0].name != "" && Bare(Entry(e)[0].name, Space)
    ensures ':' !in Entry(e)[0].name && Seconds(Entry(e)[0].value)
    ensures |Text(Entry(e)[0])| <= |e|
    ensures forall c :: c in Entry(e)[0].name ==> c in e
  {
    var idx := Index(e, ':');
    assert e[..idx][0] == e[0];
    Trimmed(e[..idx]);
    var c, d := TrimIsBare(e[idx + 1..], Space);
    assert forall x :: x in e[..idx] ==> x in e;
  }

  /** White space around the colon does not matter. */
  lemma EntrySpaced(name: string, gap: string, value: string)
    requires name != "" && ':' !in name && All(gap, Space) && Seconds(value)
    ensures Entry(name + ":" + gap + value) == [ExpiryOption(Trim(name, Space), value)]
  {
    var e := name + ":" + gap + value;
    SecondsArePlain(value);
    IndexOfAppend(name, ':', gap + value);
    assert e == name + [':'] + (gap + value);
    assert e[..|name|] == name && e[|name| + 1..] == gap + value;
    assert gap + value == gap + value + "";
    TrimDrops(gap, value, "", Space);
  }

  lemma Trimmed(s: string)
    requires s != "" && !Space(s[0])
    ensures var t := Trim(s, Space); t != "" && Bare(t, Space) && |t| <= |s| && forall c :: c in t ==> c in s
  {
    TrimNonEmpty(s, 0, Space);
    var a, b := TrimIsBare(s, Space);
    forall c | c in s[a..b] ensures c in s { }
  }

  predicate Sound(o: ExpiryOption) {
    o.name != "" && Bare(o.name, Space) && ':' !in o.name && ',' !in o.name && Seconds(o.value)
  }

  lemma PieceIsSound(piece: string)
    ensures |Piece(piece)| <= 1
    ensures ',' !in piece && Piece(piece) != [] ==> Sound(Piece(piece)[0])
    ensures Piece(piece) != [] ==> ':' !in Piece(piece)[0].name && |Text(Piece(piece)[0])| <= |piece|
  {
    var e := Clean(piece);
    var lo, hi := CleanIsInside(piece);
    assert forall c :: c in piece[lo..hi] ==> c in piece;
    if Entry(e) != [] { EntryIsSound(e); }
  }

  lemma OneEach()
    ensures AtMostOne(Piece)
  {
    forall p ensures |Piece(p)| <= 1 { PieceIsSound(p); }
  }

  /** Main result: for arbitrary input the list holds, in input order, exactly what
      the well-formed pieces say; every label in it is not empty, bare, and free of
      colons and commas, and every value is a non-negative int64. */
  lemma KeptInOrder(raw: string) returns (from: seq<nat>)
    requires Clean(raw) != ""
    ensures Picks(Piece, Split(Clean(raw), ','), Parse(raw), from)
    ensures forall i :: 0 <= i < |Parse(raw)| ==> Sound(Parse(raw)[i])
  {
    var pieces := Split(Clean(raw), ',');
    JoinSplit(Clean(raw), ',');
    OneEach();
    from := FlatMapPicks(Piece, pieces);
    forall i | 0 <= i < |Parse(raw)| ensures Sound(Parse(raw)[i]) { PieceIsSound(pieces[from[i]]); }
  }

  // Printing and parsing.

  lemma BareIsClean(s: string)
    requires Bare(s, Space) && Bare(s, Quote)
    ensures Clean(s) == s
  {}

  lemma TextIsBare(o: ExpiryOption)
    requires Plain(o)
    ensures Bare(Text(o), Space) && Bare(Text(o), Quote) && Text(o) != ""
  {
    SecondsArePlain(o.value);
    var t := Text(o);
    assert t[0] == o.name[0] && t[|t| - 1] == o.value[|o.value| - 1];
  }

  lemma PlainIsKept(o: ExpiryOption)
    requires Plain(o)
    ensures Piece(Text(o)) == [o]
  {
    TextIsBare(o);
    BareIsClean(Text(o));
    SecondsArePlain(o.value);
    IndexOfAppend(o.name, ':', o.value);
    var e := Text(o);
    assert e[..|o.name|] == o.name && e[|o.name| + 1..] == o.value;
    TrimKeeps(o.name, Space);
    TrimKeeps(o.value, Space);
  }

  /** One printed option comes back exactly when its label stands on its own. */
  lemma OptionRoundTrip(o: ExpiryOption)
    ensures Piece(Text(o)) == [o] <==> Plain(o)
  {
    if Plain(o) {
      PlainIsKept(o);
    } else if Piece(Text(o)) == [o] {
      var lo, hi := CleanIsInside(Text(o));
      EntryIsSound(Clean(Text(o)));
      CleanIdentity(Text(o));
    }
  }

  /** A text that cleaning leaves whole does not start with a quote. */
  lemma CleanIdentity(s: string)
    requires |Clean(s)| >= |s| > 0
    ensures Clean(s) == s && !Quote(s[0])
  {
    var a, b := TrimIsBare(s, Space);
    var c, d := TrimIsBare(s[a..b], Quote);
    var i, j := TrimIsBare(s[a..b][c..d], Space);
    assert s[a..b] == s;
  }

  lemma {:induction false} JoinEnds(pieces: seq<string>, c: char)
    requires |pieces| > 0 && pieces[0] != "" && pieces[|pieces| - 1] != ""
    ensures var s := Join(pieces, c); var last := pieces[|pieces| - 1];
      s != "" && s[0] == pieces[0][0] && s[|s| - 1] == last[|last| - 1]
  {
    if |pieces| > 1 { JoinLast(pieces, c); }
  }

  lemma {:induction false} JoinLast(pieces: seq<string>, c: char)
    requires |pieces| > 0 && pieces[|pieces| - 1] != ""
    ensures var s := Join(pieces, c); var last := pieces[|pieces| - 1];
      s != "" && s[|s| - 1] == last[|last| - 1]
  {
    if |pieces| > 1 { JoinLast(pieces[1..], c); }
  }

  lemma GoodIsCommaFree(o: ExpiryOption)
    requires Good(o)
    ensures ',' !in Text(o)
  {
    SecondsArePlain(o.value);
  }

  lemma GoodListIsClean(os: seq<ExpiryOption>)
    requires os != [] && AllGood(os)
    ensures Clean(Print(os)) == Print(os) != ""
  {
    TextIsBare(os[0]);
    TextIsBare(os[|os| - 1]);
    JoinEnds(Texts(os), ',');
    BareIsClean(Print(os));
  }

  lemma GoodListSplits(os: seq<ExpiryOption>)
    requires os != [] && AllGood(os)
    ensures Split(Print(os), ',') == Texts(os)
  {
    var ts := Texts(os);
    forall i | 0 <= i < |ts| ensures ',' !in ts[i] { GoodIsCommaFree(os[i]); }
    SplitJoin(ts, ',');
  }

  lemma GoodListReturns(os: seq<ExpiryOption>)
    requires os != [] && AllGood(os)
    ensures Parse(Print(os)) == os
  {
    GoodListIsClean(os);
    GoodListSplits(os);
    OneEach();
    forall i | 0 <= i < |os| ensures Piece(Texts(os)[i]) == [os[i]] { PlainIsKept(os[i]); }
    FlatMapFull(Piece, Texts(os), os);
  }

  /** What is kept, printed, is no longer than what it was read from. */
  lemma {:induction false} KeptIsShorter(pieces: seq<string>)
    requires |pieces| > 0
    ensures |Print(Kept(pieces))| <= |Join(pieces, ',')|
    decreases |pieces|
  {
    PieceIsSound(pieces[0]);
    if |pieces| == 1 {
      assert pieces == [pieces[0]];
      FlatMapOne(Piece, pieces[0]);
    } else {
      KeptIsShorter(pieces[1..]);
      var rest := Kept(pieces[1..]);
      assert Kept(pieces) == Piece(pieces[0]) + rest;
      if Piece(pieces[0]) == [] {
        assert Piece(pieces[0]) + rest == rest;
      } else {
        PrintMore(Piece(pieces[0])[0], rest);
        assert Piece(pieces[0]) == [Piece(pieces[0])[0]];
        assert Kept(pieces) == [Piece(pieces[0])[0]] + rest;
      }
    }
  }

  lemma PrintMore(o: ExpiryOption, rest: seq<ExpiryOption>)
    ensures |Print([o] + rest)| <= |Text(o)| + 1 + |Print(rest)|
  {
    var os := [o] + rest;
    assert rest != [] ==> Texts(os)[1..] == Texts(rest);
  }

  /** A printed list that comes back was clean, and so were its pieces. */
  lemma ReturnedWasClean(os: seq<ExpiryOption>)
    requires os != [] && Parse(Print(os)) == os
    ensures Clean(Print(os)) == Print(os)
  {
    var c := Clean(Print(os));
    JoinSplit(c, ',');
    KeptIsShorter(Split(c, ','));
    CleanIdentity(Print(os));
  }

  /** The options that come back are sound, so their texts hold no comma. */
  lemma ReturnedHaveNoComma(os: seq<ExpiryOption>)
    requires os != [] && Parse(Print(os)) == os
    ensures Without(Texts(os), ',')
    ensures forall i :: 0 <= i < |os| ==> Sound(os[i])
  {
    var from := KeptInOrder(Print(os));
    var ts := Texts(os);
    forall i | 0 <= i < |ts| ensures ',' !in ts[i] {
      assert Sound(os[i]);
      SecondsArePlain(os[i].value);
    }
  }

  /** Each comes back from its own text. */
  lemma ReturnedOneByOne(os: seq<ExpiryOption>)
    requires os != [] && Parse(Print(os)) == os && Clean(Print(os)) == Print(os) && Without(Texts(os), ',')
    ensures forall i :: 0 <= i < |os| ==> Piece(Texts(os)[i]) == [os[i]]
  {
    var ts := Texts(os);
    SplitJoin(ts, ',');
    OneEach();
    FlatMapFull(Piece, ts, os);
  }

  lemma ReturnedIsGood(os: seq<ExpiryOption>)
    requires os != [] && Parse(Print(os)) == os
    ensures AllGood(os)
  {
    ReturnedWasClean(os);
    ReturnedHaveNoComma(os);
    ReturnedOneByOne(os);
    forall i | 0 <= i < |os| ensures Good(os[i]) {
      assert Sound(os[i]) && Piece(Texts(os)[i]) == [os[i]];
      OptionRoundTrip(os[i]);
    }
  }

  /** Main result: parsing undoes printing exactly on the lists whose labels are not
      empty, bare, hold no comma or colon and do not start with a quote, and whose
      values are non-negative int64 counts. */
  lemma PrintParse(os: seq<ExpiryOption>)
    ensures Parse(Print(os)) == os <==> AllGood(os)
  {
    if os != [] {
      if AllGood(os) { GoodListReturns(os); }
      if Parse(Print(os)) == os { ReturnedIsGood(os); }
    }
  }

  /** Decimal counts, as a configuration writes them, are good values. */
  lemma DecimalIsSeconds(n: nat)
    ensures Seconds(Show(n)) <==> n < TWO63
  {
    ParseShow(n);
  }
}
