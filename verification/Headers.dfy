/** Which headers of an incoming request are forwarded to a target. */
module Headers {
  import opened Wrappers
  import opened Text

  /** Names are kept in lower case. Each name in the map has its values in the
      order in which they came. */
  type HeaderMap = map<string, seq<string>>

  const CONNECTION := "connection"
  const CONTENT_LENGTH := "content-length"
  const HOST := "host"
  const TRANSFER_ENCODING := "transfer-encoding"

  const STANDARD_HOP_BY_HOP_HEADERS := [
    "keep-alive",
    "proxy-authenticate",
    "proxy-authorization",
    "proxy-connection",
    "te",
    "trailer",
    "transfer-encoding",
    "upgrade"]

  /** A value that can be read as text: visible ASCII, spaces and tabs. */
  predicate IsReadable(value: string) {
    forall c :: c in value ==> ' ' <= c <= '~' || c == '\t'
  }

  predicate IsSpace(c: char) {
    c == ' ' || c == '\t'
  }

  /** A character of a field name, by section 5.6.2 of RFC 9110. */
  predicate IsTokenChar(c: char) {
    || 'a' <= c <= 'z' || 'A' <= c <= 'Z' || '0' <= c <= '9'
    || c in "!#$%&'*+-.^_`|~"
  }

  predicate IsToken(s: string) {
    s != [] && forall c :: c in s ==> IsTokenChar(c)
  }

  function ParseName(s: string): Option<string> {
    if IsToken(s) then Some(Lower(s)) else None
  }

  function TrimStart(s: string): string {
    if s != [] && IsSpace(s[0]) then TrimStart(s[1..]) else s
  }

  function TrimEnd(s: string): string {
    if s != [] && IsSpace(s[|s| - 1]) then TrimEnd(s[..|s| - 1]) else s
  }

  /** Readable text has no other white space than spaces and tabs. */
  function Trim(s: string): string {
    TrimEnd(TrimStart(s))
  }

  /** The pieces between commas; there is always at least one. */
  function Split(s: string): (pieces: seq<string>)
    ensures pieces != []
  {
    if s == [] then [[]]
    else
      var rest := Split(s[1..]);
      if s[0] == ',' then [[]] + rest else [[s[0]] + rest[0]] + rest[1..]
  }

  /** The names among the pieces of one line. */
  function Names(pieces: seq<string>): set<string> {
    set p | p in pieces && ParseName(Trim(p)).Some? :: ParseName(Trim(p)).value
  }

  function LineNames(line: string): set<string> {
    if IsReadable(line) then Names(Split(line)) else {}
  }

  /** Every field name that the `Connection` lines list. */
  function ListedNames(lines: seq<string>): set<string> {
    if lines == [] then {} else LineNames(lines[0]) + ListedNames(lines[1..])
  }

  function ConnectionHeaderNames(h: HeaderMap): set<string> {
    if CONNECTION in h then ListedNames(h[CONNECTION]) else {}
  }

  function NameSet(names: seq<string>): set<string> {
    set n | n in names
  }

  /** The names that never travel to the next hop, by section 7.6.1 of RFC 9110
      and because the HTTP client generates them itself. */
  function Stripped(h: HeaderMap): set<string> {
    {CONNECTION, CONTENT_LENGTH, HOST, TRANSFER_ENCODING}
    + NameSet(STANDARD_HOP_BY_HOP_HEADERS)
    + ConnectionHeaderNames(h)
  }

  function Without(h: HeaderMap, names: set<string>): HeaderMap {
    map n | n in h && n !in names :: h[n]
  }

  /** What is forwarded. */
  function Forwarded(h: HeaderMap, preserveHost: bool, effectiveHost: Option<string>): HeaderMap {
    var kept := Without(h, Stripped(h));
    if preserveHost && effectiveHost.Some? && IsReadable(effectiveHost.value)
    then kept[HOST := [effectiveHost.value]] else kept
  }

  /** Copies the incoming headers and removes names from the copy one by one; the
      names listed by `Connection` come in no particular order. */
  method ForwardedHeaders(incoming: HeaderMap, preserveHost: bool, effectiveHost: Option<string>)
    returns (headers: HeaderMap)
    ensures headers == Forwarded(incoming, preserveHost, effectiveHost)
  {
    var connectionHeaders := ConnectionHeaderNames(incoming);
    headers := incoming;
    headers := headers - {CONNECTION};
    headers := headers - {CONTENT_LENGTH};
    headers := headers - {HOST};
    headers := headers - {TRANSFER_ENCODING};
    ghost var removed := {CONNECTION, CONTENT_LENGTH, HOST, TRANSFER_ENCODING};
    assert headers == Without(incoming, removed);
    for i := 0 to |STANDARD_HOP_BY_HOP_HEADERS|
      invariant headers == Without(incoming, removed + NameSet(STANDARD_HOP_BY_HOP_HEADERS[..i]))
    {
      OneLess(incoming, removed + NameSet(STANDARD_HOP_BY_HOP_HEADERS[..i]), STANDARD_HOP_BY_HOP_HEADERS[i]);
      NameSetGrows(removed, STANDARD_HOP_BY_HOP_HEADERS, i);
      headers := headers - {STANDARD_HOP_BY_HOP_HEADERS[i]};
    }
    assert STANDARD_HOP_BY_HOP_HEADERS[..|STANDARD_HOP_BY_HOP_HEADERS|] == STANDARD_HOP_BY_HOP_HEADERS;
    removed := removed + NameSet(STANDARD_HOP_BY_HOP_HEADERS);
    var rest := connectionHeaders;
    while rest != {}
      invariant rest <= connectionHeaders
      invariant headers == Without(incoming, removed + (connectionHeaders - rest))
      decreases rest
    {
      var name :| name in rest;
      OneLess(incoming, removed + (connectionHeaders - rest), name);
      assert removed + (connectionHeaders - rest) + {name} == removed + (connectionHeaders - (rest - {name}));
      rest := rest - {name};
      headers := headers - {name};
    }
    assert removed + (connectionHeaders - rest) == Stripped(incoming);
    if preserveHost && effectiveHost.Some? && IsReadable(effectiveHost.value) {
      headers := headers[HOST := [effectiveHost.value]];
    }
  }

  lemma OneLess(h: HeaderMap, names: set<string>, name: string)
    ensures Without(h, names) - {name} == Without(h, names + {name})
  {
  }

  lemma NameSetGrows(fixed: set<string>, names: seq<string>, i: nat)
    requires i < |names|
    ensures fixed + NameSet(names[..i]) + {names[i]} == fixed + NameSet(names[..i + 1])
  {
  }

  /** The authority of the request target, or else the `Host` header, if it is
      readable. */
  function EffectiveHost(authority: Option<string>, h: HeaderMap): Option<string> {
    if authority.Some? then authority
    else if HOST in h && h[HOST] != [] && IsReadable(h[HOST][0]) then Some(h[HOST][0])
    else None
  }

  /** Forwarding what was forwarded changes nothing: what one hop removes does
      not come back at the next. */
  lemma ForwardingIsIdempotent(h: HeaderMap, preserveHost: bool, effectiveHost: Option<string>)
    ensures var f := Forwarded(h, preserveHost, effectiveHost);
            Forwarded(f, preserveHost, effectiveHost) == f
  {
  }

  /** The comma-separated line of some texts. */
  function Commas(texts: seq<string>): string
    requires texts != []
  {
    if |texts| == 1 then texts[0] else texts[0] + "," + Commas(texts[1..])
  }

  lemma {:induction false} SplitAtComma(a: string, b: string)
    ensures Split(a + "," + b) == Split(a) + Split(b)
  {
    if a == [] {
      assert ("" + "," + b)[1..] == b;
      assert Split("") == [[]];
    } else {
      assert (a + "," + b)[1..] == a[1..] + "," + b;
      assert (a + "," + b)[0] == a[0];
      SplitAtComma(a[1..], b);
    }
  }

  lemma {:induction false} SplitWithoutComma(s: string)
    requires ',' !in s
    ensures Split(s) == [s]
  {
    if s != [] {
      SplitWithoutComma(s[1..]);
      assert [s[0]] + s[1..] == s;
    }
  }

  lemma {:induction false} SplitOfCommas(texts: seq<string>)
    requires texts != [] && forall t :: t in texts ==> ',' !in t
    ensures Split(Commas(texts)) == texts
  {
    SplitWithoutComma(texts[0]);
    if |texts| > 1 {
      SplitAtComma(texts[0], Commas(texts[1..]));
      SplitOfCommas(texts[1..]);
    }
  }

  lemma {:induction false} ReadableCommas(texts: seq<string>)
    requires texts != []
    ensures IsReadable(Commas(texts)) <==> forall t :: t in texts ==> IsReadable(t)
  {
    if |texts| > 1 {
      var rest := Commas(texts[1..]);
      ReadableCommas(texts[1..]);
      ReadableConcat(texts[0], rest);
      assert texts == [texts[0]] + texts[1..];
    }
  }

  lemma ReadableConcat(a: string, b: string)
    ensures IsReadable(a + "," + b) <==> IsReadable(a) && IsReadable(b)
  {
    assert forall c :: c in a + "," + b <==> c in a || c == ',' || c in b;
  }

  /** A list element: a field name in any letter case, or nothing, with optional
      white space around it. */
  datatype Element = Element(before: string, name: string, after: string)

  predicate IsElement(e: Element) {
    && (forall c :: c in e.before ==> IsSpace(c))
    && (forall c :: c in e.after ==> IsSpace(c))
    && (e.name == [] || IsToken(e.name))
  }

  function TextOf(e: Element): string {
    e.before + e.name + e.after
  }

  function Texts(es: seq<Element>): (texts: seq<string>)
    ensures |texts| == |es|
    ensures forall i :: 0 <= i < |es| ==> texts[i] == TextOf(es[i])
  {
    seq(|es|, i requires 0 <= i < |es| => TextOf(es[i]))
  }

  lemma {:induction false} TrimStartSkips(spaces: string, s: string)
    requires forall c :: c in spaces ==> IsSpace(c)
    requires s == [] || !IsSpace(s[0])
    ensures TrimStart(spaces + s) == s
  {
    if spaces == [] {
      assert spaces + s == s;
    } else {
      assert (spaces + s)[1..] == spaces[1..] + s;
      TrimStartSkips(spaces[1..], s);
    }
  }

  lemma {:induction false} TrimEndSkips(s: string, spaces: string)
    requires forall c :: c in spaces ==> IsSpace(c)
    requires s == [] || !IsSpace(s[|s| - 1])
    ensures TrimEnd(s + spaces) == s
  {
    if spaces == [] {
      assert s + spaces == s;
    } else {
      var n := |spaces| - 1;
      assert (s + spaces)[..|s + spaces| - 1] == s + spaces[..n];
      TrimEndSkips(s, spaces[..n]);
    }
  }

  lemma TokenHasNoSpace(name: string)
    requires IsToken(name)
    ensures forall i :: 0 <= i < |name| ==> !IsSpace(name[i])
  {
    forall i | 0 <= i < |name|
      ensures !IsSpace(name[i])
    {
      assert name[i] in name;
    }
  }

  lemma TrimOfName(before: string, name: string, after: string)
    requires name != [] && !IsSpace(name[0]) && !IsSpace(name[|name| - 1])
    requires forall c :: c in before || c in after ==> IsSpace(c)
    ensures Trim(before + name + after) == name
  {
    assert before + name + after == before + (name + after);
    TrimStartSkips(before, name + after);
    TrimEndSkips(name, after);
  }

  lemma TrimOfElement(e: Element)
    requires IsElement(e)
    ensures Trim(TextOf(e)) == e.name
  {
    if e.name == [] {
      assert TextOf(e) == (e.before + e.after) + [];
      TrimStartSkips(e.before + e.after, []);
    } else {
      TokenHasNoSpace(e.name);
      TrimOfName(e.before, e.name, e.after);
    }
  }

  lemma ElementText(e: Element)
    requires IsElement(e)
    ensures IsReadable(TextOf(e)) && ',' !in TextOf(e)
  {
    if e.name != [] {
      TokenIsPlain(e.name);
    }
  }

  lemma TextsAreClean(es: seq<Element>)
    requires forall i :: 0 <= i < |es| ==> IsElement(es[i])
    ensures forall t :: t in Texts(es) ==> IsReadable(t) && ',' !in t
  {
    var texts := Texts(es);
    forall t | t in texts
      ensures IsReadable(t) && ',' !in t
    {
      var i :| 0 <= i < |es| && texts[i] == t;
      ElementText(es[i]);
    }
  }

  lemma NamesOfTexts(es: seq<Element>)
    requires forall i :: 0 <= i < |es| ==> IsElement(es[i])
    ensures Names(Texts(es)) == set e | e in es && e.name != [] :: Lower(e.name)
  {
    var texts := Texts(es);
    forall e | e in es
      ensures TextOf(e) in texts && Trim(TextOf(e)) == e.name
    {
      var i :| 0 <= i < |es| && es[i] == e;
      TrimOfElement(e);
      assert texts[i] == TextOf(e);
    }
    forall n | n in Names(texts)
      ensures exists e :: e in es && e.name != [] && Lower(e.name) == n
    {
      var t :| t in texts && ParseName(Trim(t)) == Some(n);
      var i :| 0 <= i < |es| && texts[i] == t;
      assert es[i] in es && Trim(t) == es[i].name;
    }
    forall e | e in es && e.name != []
      ensures Lower(e.name) in Names(texts)
    {
      assert ParseName(Trim(TextOf(e))) == Some(Lower(e.name));
    }
  }

  /** Round trip: written out as a list, in any letter case, with any optional
      white space and any empty elements, the names come back in lower case, all
      of them and no others. */
  lemma ConnectionListRoundTrip(es: seq<Element>)
    requires es != [] && forall i :: 0 <= i < |es| ==> IsElement(es[i])
    ensures LineNames(Commas(Texts(es))) == set e | e in es && e.name != [] :: Lower(e.name)
  {
    TextsAreClean(es);
    SplitOfCommas(Texts(es));
    ReadableCommas(Texts(es));
    NamesOfTexts(es);
  }

  lemma NamesOfConcat(a: seq<string>, b: seq<string>)
    ensures Names(a + b) == Names(a) + Names(b)
  {
  }

  lemma {:induction false} CombinedReadable(lines: seq<string>)
    requires lines != [] && forall l :: l in lines ==> IsReadable(l)
    ensures LineNames(Commas(lines)) == ListedNames(lines)
  {
    ReadableCommas(lines);
    if |lines| == 1 {
      assert ListedNames(lines[1..]) == {};
    } else {
      var rest := Commas(lines[1..]);
      CombinedReadable(lines[1..]);
      ReadableCommas(lines[1..]);
      SplitAtComma(lines[0], rest);
      NamesOfConcat(Split(lines[0]), Split(rest));
    }
  }

  /** Several `Connection` lines mean what one line with their values joined by
      commas means, by section 5.3 of RFC 9110, exactly when all of them are
      readable, or none that is readable lists a name: the program skips an
      unreadable line, but would skip the joined line as a whole. */
  lemma CombiningLinesIsExact(lines: seq<string>)
    requires lines != []
    ensures LineNames(Commas(lines)) == ListedNames(lines)
       <==> (forall l :: l in lines ==> IsReadable(l)) || forall l :: l in lines ==> LineNames(l) == {}
  {
    ReadableCommas(lines);
    ListedNamesIsUnion(lines);
    if forall l :: l in lines ==> IsReadable(l) {
      CombinedReadable(lines);
    }
  }

  /** One unreadable line is enough: beside it `close` is taken as listed, joined with
      it nothing is. */
  lemma CombiningLosesNames()
    ensures var lines := ["close", "\U{80}"];
            ListedNames(lines) == {"close"} && LineNames(Commas(lines)) == {}
  {
    var lines := ["close", "\U{80}"];
    OneName("close");
    assert Lower("close") == "close";
    assert '\U{80}' in lines[1];
    assert ListedNames(lines[1..]) == {} by {
      assert lines[1..] == [lines[1]] && ListedNames(lines[1..][1..]) == {};
    }
    ReadableCommas(lines);
  }

  lemma OneName(name: string)
    requires IsToken(name)
    ensures LineNames(name) == {Lower(name)}
  {
    TokenIsPlain(name);
    SplitWithoutComma(name);
    TokenHasNoSpace(name);
    TrimOfName("", name, "");
    assert "" + name + "" == name;
    assert Names([name]) == {Lower(name)};
  }

  lemma TokenIsPlain(name: string)
    requires IsToken(name)
    ensures IsReadable(name) && ',' !in name
  {
    assert forall c: char :: IsTokenChar(c) ==> ' ' <= c <= '~' && c != ',';
  }

  lemma {:induction false} ListedNamesIsUnion(lines: seq<string>)
    ensures forall l :: l in lines ==> LineNames(l) <= ListedNames(lines)
    ensures (forall l :: l in lines ==> LineNames(l) == {}) <==> ListedNames(lines) == {}
  {
    if lines != [] {
      ListedNamesIsUnion(lines[1..]);
      assert lines == [lines[0]] + lines[1..];
    }
  }

  /** Visible ASCII, spaces and tabs. */
  predicate IsText(value: string) {
    forall c :: c in value ==> c as int == 9 || 32 <= c as int <= 126
  }

  /** A field name by section 5.6.2 of RFC 9110: visible characters that are no
      delimiters. */
  predicate IsFieldName(s: string) {
    s != [] && forall c :: c in s ==> 33 <= c as int <= 126 && c !in "\"(),/:;<=>?@[\\]{}"
  }

  predicate IsBlank(s: string) {
    forall c :: c in s ==> c as int == 9 || c as int == 32
  }

  /** The line consists of `x`, an element and `y`, with a comma on either side of the
      element unless the line begins or ends there. The element is a field name with
      blanks around it, and `name` is that field name in small letters. */
  predicate IsEntry(line: string, x: string, before: string, token: string, after: string, y: string, name: string) {
    && line == x + (before + token + after) + y
    && (x == [] || x[|x| - 1] == ',') && (y == [] || y[0] == ',')
    && IsBlank(before) && IsBlank(after) && IsFieldName(token) && IsInSmall(name, token)
  }

  ghost predicate Lists(line: string, name: string) {
    exists x, before, token, after, y :: IsEntry(line, x, before, token, after, y, name)
  }

  lemma TokensAreFieldNames(s: string)
    ensures IsToken(s) <==> IsFieldName(s)
    ensures IsReadable(s) <==> IsText(s)
  {
    assert forall c: char :: IsTokenChar(c) <==> 33 <= c as int <= 126 && c !in "\"(),/:;<=>?@[\\]{}";
  }

  /** Where the pieces of a line come from. */
  lemma {:induction false} PlaceOfPiece(line: string, k: nat) returns (x: string, y: string)
    requires k < |Split(line)|
    ensures line == x + Split(line)[k] + y
    ensures (x == [] || x[|x| - 1] == ',') && (y == [] || y[0] == ',')
    ensures x == [] <==> k == 0
  {
    if line == [] {
      return [], [];
    }
    var rest := line[1..];
    if line[0] == ',' {
      if k == 0 {
        return [], line;
      }
      x, y := PlaceOfPiece(rest, k - 1);
      assert line == [','] + rest;
      x := [','] + x;
    } else {
      x, y := PlaceOfPiece(rest, k);
      assert line == [line[0]] + rest;
      if k > 0 {
        x := [line[0]] + x;
      }
    }
  }

  lemma FirstPiece(piece: string, y: string)
    requires ',' !in piece && (y == [] || y[0] == ',')
    ensures piece in Split(piece + y)
  {
    SplitWithoutComma(piece);
    if y == [] {
      assert piece + y == piece;
    } else {
      var rest := y[1..];
      assert y == "," + rest;
      assert piece + y == piece + "," + rest;
      SplitAtComma(piece, rest);
    }
  }

  lemma LaterPiece(x: string, rest: string, piece: string)
    requires x == [] || x[|x| - 1] == ','
    requires piece in Split(rest)
    ensures piece in Split(x + rest)
  {
    if x == [] {
      assert x + rest == rest;
    } else {
      var start := x[..|x| - 1];
      assert x == start + ",";
      SplitAtComma(start, rest);
    }
  }

  lemma Regroup(x: string, piece: string, y: string)
    ensures x + piece + y == x + (piece + y)
  {
  }

  lemma PieceOfPlace(x: string, piece: string, y: string)
    requires ',' !in piece
    requires (x == [] || x[|x| - 1] == ',') && (y == [] || y[0] == ',')
    ensures piece in Split(x + piece + y)
  {
    FirstPiece(piece, y);
    LaterPiece(x, piece + y, piece);
    Regroup(x, piece, y);
  }

  lemma {:induction false} TrimStartParts(s: string) returns (before: string)
    ensures s == before + TrimStart(s) && IsBlank(before)
  {
    if s != [] && IsSpace(s[0]) {
      before := TrimStartParts(s[1..]);
      before := [s[0]] + before;
    } else {
      before := [];
    }
  }

  lemma {:induction false} TrimEndParts(s: string) returns (after: string)
    ensures s == TrimEnd(s) + after && IsBlank(after)
  {
    if s != [] && IsSpace(s[|s| - 1]) {
      after := TrimEndParts(s[..|s| - 1]);
      after := after + [s[|s| - 1]];
    } else {
      after := [];
    }
  }

  lemma ListedHasEntry(line: string, name: string)
    requires IsReadable(line) && name in Names(Split(line))
    ensures Lists(line, name)
  {
    var pieces := Split(line);
    var piece :| piece in pieces && ParseName(Trim(piece)) == Some(name);
    var k: nat :| k < |pieces| && pieces[k] == piece;
    var x, y := PlaceOfPiece(line, k);
    var before := TrimStartParts(piece);
    var after := TrimEndParts(TrimStart(piece));
    var token := Trim(piece);
    assert piece == before + token + after;
    TokensAreFieldNames(token);
    LowerMeaning(token, name);
    assert IsEntry(line, x, before, token, after, y, name);
  }

  lemma EntryIsListed(line: string, x: string, before: string, token: string, after: string, y: string, name: string)
    requires IsEntry(line, x, before, token, after, y, name)
    ensures name in Names(Split(line))
  {
    var piece := before + token + after;
    assert ',' !in piece;
    PieceOfPlace(x, piece, y);
    TokensAreFieldNames(token);
    TokenHasNoSpace(token);
    TrimOfName(before, token, after);
    LowerMeaning(token, name);
    assert ParseName(Trim(piece)) == Some(name);
  }

  /** Which names a line lists, without splitting, trimming or parsing it. */
  lemma LineNamesSpelledOut(line: string, name: string)
    ensures name in LineNames(line) <==> IsText(line) && Lists(line, name)
  {
    TokensAreFieldNames(line);
    if IsReadable(line) && name in Names(Split(line)) {
      ListedHasEntry(line, name);
    }
    if Lists(line, name) {
      var x, before, token, after, y :| IsEntry(line, x, before, token, after, y, name);
      EntryIsListed(line, x, before, token, after, y, name);
    }
  }

  lemma {:induction false} ListedNamesSpelledOut(lines: seq<string>, name: string)
    ensures name in ListedNames(lines) <==> exists l :: l in lines && IsText(l) && Lists(l, name)
  {
    if lines != [] {
      LineNamesSpelledOut(lines[0], name);
      ListedNamesSpelledOut(lines[1..], name);
      assert lines == [lines[0]] + lines[1..];
    }
  }

  /** Every header that reaches the target came with exactly these values in this
      order, and is neither a hop-by-hop header, nor one that the HTTP client writes
      itself, nor listed in any letter case by a readable `Connection` line. All
      other headers do reach it. `Host` is there exactly when it is asked for and
      known, with one value. */
  lemma ForwardingMeaning(h: HeaderMap, preserveHost: bool, effectiveHost: Option<string>, name: string)
    ensures var f := Forwarded(h, preserveHost, effectiveHost);
            && (name != "host" ==>
                  && (name in f <==>
                        && name in h
                        && name !in ["connection", "content-length", "transfer-encoding", "keep-alive",
                                     "proxy-authenticate", "proxy-authorization", "proxy-connection", "te",
                                     "trailer", "upgrade"]
                        && !("connection" in h
                             && exists l :: l in h["connection"] && IsText(l) && Lists(l, name)))
                  && (name in f ==> f[name] == h[name]))
            && ("host" in f <==> preserveHost && effectiveHost.Some? && IsText(effectiveHost.value))
            && ("host" in f ==> f["host"] == [effectiveHost.value])
  {
    if CONNECTION in h {
      ListedNamesSpelledOut(h[CONNECTION], name);
    }
    if effectiveHost.Some? {
      TokensAreFieldNames(effectiveHost.value);
    }
  }

  /** The authority of the request target wins over the `Host` header; without one it
      is the first value of that header, if it can be read. */
  lemma EffectiveHostMeaning(authority: Option<string>, h: HeaderMap, host: string)
    ensures EffectiveHost(authority, h) == Some(host) <==>
              authority == Some(host)
              || (authority == None && "host" in h && |h["host"]| > 0 && h["host"][0] == host && IsText(host))
  {
    TokensAreFieldNames(host);
    if HOST in h && h[HOST] != [] {
      TokensAreFieldNames(h[HOST][0]);
    }
  }
}
