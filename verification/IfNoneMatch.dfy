/** price_api/api/routes/token_logos.py: the scanner of an If-None-Match header field (sections 13.1.2
    and 8.8.3.2 of RFC 9110). The scanning methods move an index; the functions they are proved
    against work on the text that is left. */
module IfNoneMatch {
  import opened Options

  const OWS := " \t"
  const GAP := " \t,"

  function DropIn(s: string, characters: string): (r: string)
    ensures |r| <= |s|
  {
    if s != "" && s[0] in characters then DropIn(s[1..], characters) else s
  }

  function FromComma(s: string): (r: string)
    ensures |r| <= |s|
  {
    if s != "" && s[0] != ',' then FromComma(s[1..]) else s
  }

  /** The position of the first double quote. */
  function FindQuote(s: string): (r: Option<nat>)
    ensures r.Some? ==> r.value < |s|
  {
    if s == "" then None
    else if s[0] == '"' then Some(0)
    else match FindQuote(s[1..])
      case None => None
      case Some(i) => Some(i + 1)
  }

  lemma {:induction false} FindQuoteIsFirst(s: string)
    ensures var r := FindQuote(s);
            match r
            case None => '"' !in s
            case Some(i) => s[i] == '"' && '"' !in s[..i]
  {
    if s != "" && s[0] != '"' {
      FindQuoteIsFirst(s[1..]);
      var r := FindQuote(s[1..]);
      assert s == [s[0]] + s[1..];
      assert r.Some? ==> s[..r.value + 1] == [s[0]] + s[1..][..r.value];
    }
  }

  datatype Scanned = Scanned(member: Option<string>, rest: string)

  function AtSeparator(s: string): bool {
    s == "" || s[0] == ','
  }

  function EndMember(text: string, after: string): Scanned {
    var rest := DropIn(after, OWS);
    if AtSeparator(rest) then Scanned(Some(text), rest) else Scanned(None, FromComma(rest))
  }

  function Unprefixed(s: string): string {
    if "W/" <= s then s[2..] else s
  }

  function ParseMember(s: string): Scanned
    requires s != ""
  {
    if s[0] == '*' then EndMember("*", s[1..])
    else
      var t := Unprefixed(s);
      if t == "" || t[0] != '"' then Scanned(None, FromComma(t)) else ParseTag(t[1..])
  }

  /** What follows an opening quote. */
  function ParseTag(s: string): Scanned {
    match FindQuote(s)
    case None => Scanned(None, "")
    case Some(i) => EndMember(s[..i], s[i + 1..])
  }

  /** Every member that starts where the scanner looks for one takes at least one character. */
  lemma MemberAdvances(s: string)
    requires s != "" && s[0] !in GAP
    ensures |ParseMember(s).rest| < |s|
  {
  }

  lemma {:induction false} DropInStops(s: string, characters: string)
    ensures var r := DropIn(s, characters); r == "" || r[0] !in characters
  {
    if s != "" && s[0] in characters {
      DropInStops(s[1..], characters);
    }
  }

  function Scan(s: string, contentHash: string): bool
    decreases |s|
  {
    var t := DropIn(s, GAP);
    DropInStops(s, GAP);
    if t == "" then false
    else
      var m := ParseMember(t);
      MemberAdvances(t);
      m.member == Some("*") || m.member == Some(contentHash) || Scan(m.rest, contentHash)
  }

  // ---- the scanner

  method SkipCharacters(value: string, start: nat, characters: string) returns (index: nat)
    requires start <= |value|
    ensures start <= index <= |value| && value[index..] == DropIn(value[start..], characters)
  {
    index := start;
    while index < |value| && value[index] in characters
      invariant start <= index <= |value|
      invariant DropIn(value[start..], characters) == DropIn(value[index..], characters)
    {
      assert value[index..][1..] == value[index + 1..];
      index := index + 1;
    }
  }

  method SkipToComma(value: string, start: nat) returns (index: nat)
    requires start <= |value|
    ensures start <= index <= |value| && value[index..] == FromComma(value[start..])
    ensures start < |value| && value[start] != ',' ==> start < index
  {
    index := start;
    while index < |value| && value[index] != ','
      invariant start <= index <= |value|
      invariant FromComma(value[start..]) == FromComma(value[index..])
    {
      assert value[index..][1..] == value[index + 1..];
      index := index + 1;
    }
  }

  /** Where the text of a member starts once its weakness prefix is passed. */
  function PrefixEnd(value: string, start: nat): nat {
    if start + 2 <= |value| && value[start] == 'W' && value[start + 1] == '/' then start + 2 else start
  }

  lemma PrefixAt(value: string, start: nat)
    requires start < |value|
    ensures PrefixEnd(value, start) <= |value|
    ensures value[PrefixEnd(value, start)..] == Unprefixed(value[start..])
  {
    var s := value[start..];
    if PrefixEnd(value, start) > start {
      assert s[..2] == "W/" && s[2..] == value[start + 2..];
    } else if "W/" <= s {
      assert s[0] == 'W' && s[1] == '/';
    }
  }

  lemma TagAt(value: string, start: nat, index: nat, found: Option<nat>)
    requires start < |value| && value[start] != '*' && index == PrefixEnd(value, start)
    requires index < |value| && value[index] == '"' && found == FindQuote(value[index + 1..])
    ensures found.None? ==> ParseMember(value[start..]) == Scanned(None, "")
    ensures found.Some? ==>
              var endQuote := index + 1 + found.value;
              && endQuote < |value|
              && ParseMember(value[start..]) == EndMember(value[index + 1..endQuote], value[endQuote + 1..])
  {
    PrefixAt(value, start);
    var t := value[index + 1..];
    assert value[index..][1..] == t;
    assert ParseMember(value[start..]) == ParseTag(t);
    if found.Some? {
      assert t[..found.value] == value[index + 1..index + 1 + found.value];
      assert t[found.value + 1..] == value[index + 1 + found.value + 1..];
    }
  }

  method ParseEtagMember(value: string, start: nat) returns (member: Option<string>, index: nat)
    requires start < |value|
    ensures start <= index <= |value|
    ensures value[start] !in GAP ==> start < index
    ensures Scanned(member, value[index..]) == ParseMember(value[start..])
  {
    if value[start] == '*' {
      member, index := FinishMember(value, "*", start + 1);
      return;
    }
    index := start;
    if start + 2 <= |value| && value[start] == 'W' && value[start + 1] == '/' {
      index := start + 2;
    }
    member, index := ParseTagAt(value, start, index);
  }

  /** The part of a member that follows its prefix. */
  method ParseTagAt(value: string, start: nat, quote: nat) returns (member: Option<string>, index: nat)
    requires start < |value| && value[start] != '*' && quote == PrefixEnd(value, start)
    ensures start <= index <= |value|
    ensures value[start] !in GAP ==> start < index
    ensures Scanned(member, value[index..]) == ParseMember(value[start..])
  {
    if quote >= |value| || value[quote] != '"' {
      index := SkipToComma(value, quote);
      return None, index;
    }
    member, index := ParseQuoted(value, start, quote);
  }

  /** A member from its opening quote on. */
  method ParseQuoted(value: string, start: nat, quote: nat) returns (member: Option<string>, index: nat)
    requires start < |value| && value[start] != '*' && quote == PrefixEnd(value, start)
    requires quote < |value| && value[quote] == '"'
    ensures quote < index <= |value|
    ensures Scanned(member, value[index..]) == ParseMember(value[start..])
  {
    var found := FindQuote(value[quote + 1..]);
    TagAt(value, start, quote, found);
    if found.None? {
      return None, |value|;
    }
    var endQuote := quote + 1 + found.value;
    member, index := FinishMember(value, value[quote + 1..endQuote], endQuote + 1);
  }

  /** What a member does once its text is read: only blanks may come before the next comma. */
  method FinishMember(value: string, text: string, start: nat) returns (member: Option<string>, index: nat)
    requires start <= |value|
    ensures start <= index <= |value|
    ensures Scanned(member, value[index..]) == EndMember(text, value[start..])
  {
    index := SkipCharacters(value, start, OWS);
    if index == |value| || value[index] == ',' {
      return Some(text), index;
    }
    index := SkipToComma(value, index);
    return None, index;
  }

  method IfNoneMatchMatches(value: Option<string>, contentHash: string) returns (matches: bool)
    ensures matches == (value.Some? && Scan(value.value, contentHash))
  {
    if value.None? {
      return false;
    }
    var text := value.value;
    var index := 0;
    assert text[0..] == text;
    while index < |text|
      invariant 0 <= index <= |text|
      invariant Scan(text, contentHash) == Scan(text[index..], contentHash)
      decreases |text| - index
    {
      DropInStops(text[index..], GAP);
      index := SkipCharacters(text, index, GAP);
      if index >= |text| {
        return false;
      }
      assert text[index] == text[index..][0];
      var member;
      member, index := ParseEtagMember(text, index);
      if member == Some("*") || member == Some(contentHash) {
        return true;
      }
    }
    return false;
  }

  // ---- what a header says

  /** A list member, or the text that stands in the place of one. */
  datatype Member =
    | Any(pad: string)
    | Tag(weak: bool, text: string, pad: string)
    | Trailed(head: Member, junk: string)
    | Bare(junk: string)
    | Unclosed(weak: bool, text: string)

  function Opening(weak: bool): string {
    if weak then "W/\"" else "\""
  }

  function Written(m: Member): string {
    match m
    case Any(pad) => "*" + pad
    case Tag(weak, text, pad) => Opening(weak) + text + "\"" + pad
    case Trailed(head, junk) => Written(head) + junk
    case Bare(junk) => junk
    case Unclosed(weak, text) => Opening(weak) + text
  }

  predicate AllIn(s: string, characters: string) {
    forall c <- s :: c in characters
  }

  predicate WellFormed(m: Member) {
    match m
    case Any(pad) => AllIn(pad, OWS)
    case Tag(_, text, pad) => '"' !in text && AllIn(pad, OWS)
    case Trailed(head, junk) =>
      (head.Any? || head.Tag?) && WellFormed(head) && junk != "" && junk[0] !in GAP && ',' !in junk
    case Bare(junk) =>
      && junk != "" && junk[0] !in GAP && junk[0] != '*' && ',' !in junk
      && (Unprefixed(junk) == "" || Unprefixed(junk)[0] != '"')
    case Unclosed(_, text) => '"' !in text
  }

  /** The weak comparison: a tag names the content by its text alone. A quoted asterisk counts as a
      wildcard, as in the code. */
  predicate Names(m: Member, contentHash: string) {
    m.Any? || (m.Tag? && (m.text == contentHash || m.text == "*"))
  }

  datatype Item = Item(gap: string, member: Member)

  function Header(items: seq<Item>, tail: string): string {
    if items == [] then tail else items[0].gap + Written(items[0].member) + Header(items[1..], tail)
  }

  /** Blanks and commas stand around the members, with a comma between any two, and a tag that is
      never closed takes the rest of the field. */
  predicate IsList(items: seq<Item>, tail: string) {
    if items == [] then AllIn(tail, GAP)
    else
      && AllIn(items[0].gap, GAP) && WellFormed(items[0].member)
      && IsList(items[1..], tail)
      && (var rest := Header(items[1..], tail);
          AtSeparator(rest) && (items[0].member.Unclosed? ==> rest == ""))
  }

  predicate Lists(items: seq<Item>, contentHash: string) {
    exists i :: 0 <= i < |items| && Names(items[i].member, contentHash)
  }

  lemma {:induction false} DropInTakes(g: string, t: string, characters: string)
    requires AllIn(g, characters) && (t == "" || t[0] !in characters)
    ensures DropIn(g + t, characters) == t
  {
    if g == "" {
      assert g + t == t;
    } else {
      assert (g + t)[0] == g[0] && g[0] in g && (g + t)[1..] == g[1..] + t;
      DropInTakes(g[1..], t, characters);
    }
  }

  lemma {:induction false} FromCommaTakes(j: string, t: string)
    requires ',' !in j && AtSeparator(t)
    ensures FromComma(j + t) == t
  {
    if j == "" {
      assert j + t == t;
    } else {
      assert (j + t)[0] == j[0] && (j + t)[1..] == j[1..] + t;
      FromCommaTakes(j[1..], t);
    }
  }

  lemma {:induction false} FindQuoteFinds(text: string, t: string)
    requires '"' !in text
    ensures FindQuote(text + "\"" + t) == Some(|text|)
  {
    var s := text + "\"" + t;
    if text == "" {
      assert s[0] == '"';
    } else {
      assert s[0] == text[0] && s[1..] == text[1..] + "\"" + t;
      FindQuoteFinds(text[1..], t);
    }
  }

  function Denoted(m: Member): Option<string> {
    match m
    case Any(_) => Some("*")
    case Tag(_, text, _) => Some(text)
    case Trailed(_, _) => None
    case Bare(_) => None
    case Unclosed(_, _) => None
  }

  lemma EndsClean(text: string, pad: string, rest: string)
    requires AllIn(pad, OWS) && AtSeparator(rest)
    ensures EndMember(text, pad + rest) == Scanned(Some(text), rest)
  {
    DropInTakes(pad, rest, OWS);
  }

  lemma EndsInJunk(text: string, pad: string, junk: string, rest: string)
    requires AllIn(pad, OWS) && junk != "" && junk[0] !in GAP && ',' !in junk && AtSeparator(rest)
    ensures EndMember(text, pad + junk + rest) == Scanned(None, rest)
  {
    assert pad + junk + rest == pad + (junk + rest);
    assert (junk + rest)[0] == junk[0];
    DropInTakes(pad, junk + rest, OWS);
    FromCommaTakes(junk, rest);
  }

  lemma ParsesOpening(weak: bool, t: string)
    ensures ParseMember(Opening(weak) + t) == ParseTag(t)
  {
    var s, quoted := Opening(weak) + t, "\"" + t;
    assert quoted[1..] == t;
    if weak {
      assert s == "W/" + quoted;
      assert "W/" <= s && s[2..] == quoted;
    } else {
      assert s == quoted;
    }
    assert quoted[0] == '"' && Unprefixed(s) == quoted;
  }

  lemma ParsesQuoted(text: string, after: string)
    requires '"' !in text
    ensures ParseTag(text + "\"" + after) == EndMember(text, after)
  {
    FindQuoteFinds(text, after);
    var s := text + "\"" + after;
    assert s[..|text|] == text && s[|text| + 1..] == after;
  }

  lemma ParsesBare(junk: string, rest: string)
    requires WellFormed(Bare(junk)) && AtSeparator(rest)
    ensures ParseMember(junk + rest) == Scanned(None, rest)
  {
    var s := junk + rest;
    assert s[0] == junk[0];
    if "W/" <= s {
      assert s[1] == '/';
      assert |junk| >= 2 && "W/" <= junk;
      assert s[2..] == junk[2..] + rest;
      FromCommaTakes(junk[2..], rest);
    } else {
      assert !("W/" <= junk);
      FromCommaTakes(junk, rest);
    }
  }

  lemma Associate(a: string, b: string, c: string)
    ensures a + b + c == a + (b + c)
  {
  }

  lemma Regroup(a: string, b: string, c: string, d: string)
    ensures a + b + c + d == a + (b + (c + d))
  {
  }

  lemma ParsesHead(head: Member, after: string)
    requires (head.Any? || head.Tag?) && WellFormed(head)
    ensures ParseMember(Written(head) + after) == EndMember(Denoted(head).value, head.pad + after)
  {
    match head
    case Any(pad) =>
      assert (Written(head) + after)[1..] == pad + after;
    case Tag(weak, text, pad) =>
      Regroup(Opening(weak), text + "\"", pad, after);
      assert Opening(weak) + (text + "\"") + pad == Written(head);
      ParsesOpening(weak, text + "\"" + (pad + after));
      ParsesQuoted(text, pad + after);
  }

  /** The scanner reads back each member, and malformed text up to the comma that ends it. */
  lemma ParsesWritten(m: Member, rest: string)
    requires WellFormed(m) && AtSeparator(rest) && (m.Unclosed? ==> rest == "")
    ensures Written(m) != "" && Written(m)[0] !in GAP
    ensures ParseMember(Written(m) + rest) == Scanned(Denoted(m), rest)
  {
    WrittenStarts(m);
    match m
    case Any(pad) =>
      ParsesHead(m, rest);
      EndsClean("*", pad, rest);
    case Tag(weak, text, pad) =>
      ParsesHead(m, rest);
      EndsClean(text, pad, rest);
    case Trailed(head, junk) =>
      ParsesTrailed(head, junk, rest);
    case Bare(junk) =>
      ParsesBare(junk, rest);
    case Unclosed(weak, text) =>
      assert Written(m) + rest == Written(m);
      ParsesOpening(weak, text);
      FindQuoteIsFirst(text);
  }

  lemma WrittenStarts(m: Member)
    requires WellFormed(m)
    ensures Written(m) != "" && Written(m)[0] !in GAP
  {
    if m.Trailed? {
      WrittenStarts(m.head);
    }
  }

  lemma ParsesTrailed(head: Member, junk: string, rest: string)
    requires WellFormed(Trailed(head, junk)) && AtSeparator(rest)
    ensures ParseMember(Written(head) + junk + rest) == Scanned(None, rest)
  {
    Associate(Written(head), junk, rest);
    ParsesHead(head, junk + rest);
    Associate(head.pad, junk, rest);
    EndsInJunk(Denoted(head).value, head.pad, junk, rest);
  }

  /** A field answers true exactly when the list it writes has the wildcard or the content's tag. */
  lemma {:induction false} ScanDecidesList(items: seq<Item>, tail: string, contentHash: string)
    requires IsList(items, tail)
    ensures Scan(Header(items, tail), contentHash) <==> Lists(items, contentHash)
  {
    if items == [] {
      assert tail + "" == tail;
      DropInTakes(tail, "", GAP);
    } else {
      var m, rest := items[0].member, Header(items[1..], tail);
      ParsesWritten(m, rest);
      var t := Written(m) + rest;
      assert Header(items, tail) == items[0].gap + t;
      assert t[0] == Written(m)[0];
      DropInTakes(items[0].gap, t, GAP);
      ScanDecidesList(items[1..], tail, contentHash);
    }
  }

  /** On a list of entity tags, strong or weak, none of which is the text `*`: the weak comparison. */
  lemma TagListMatchesByText(items: seq<Item>, tail: string, contentHash: string)
    requires IsList(items, tail)
    requires forall i <- items :: i.member.Tag? && i.member.text != "*"
    ensures Scan(Header(items, tail), contentHash) <==> exists i <- items :: i.member.text == contentHash
  {
    ScanDecidesList(items, tail, contentHash);
    if i :| 0 <= i < |items| && items[i].member.text == contentHash {
      assert Names(items[i].member, contentHash);
    }
  }

  /** On any list of entity tags the answer is the weak comparison's exactly if no tag is the text `*`
      or the content is listed anyway. */
  lemma TagListAgreesExactly(items: seq<Item>, tail: string, contentHash: string)
    requires IsList(items, tail) && forall i <- items :: i.member.Tag?
    ensures (Scan(Header(items, tail), contentHash) <==> exists i <- items :: i.member.text == contentHash)
            <==> (forall i <- items :: i.member.text != "*") || exists i <- items :: i.member.text == contentHash
  {
    ScanDecidesList(items, tail, contentHash);
    if i :| 0 <= i < |items| && (items[i].member.text == contentHash || items[i].member.text == "*") {
      assert Names(items[i].member, contentHash);
    }
  }

  /** Where the code leaves the RFC: the tag `"*"` is read as the wildcard. */
  lemma QuotedAsteriskIsAWildcard(weak: bool, contentHash: string)
    ensures Scan(Opening(weak) + "*\"", contentHash)
  {
    var items := [Item("", Tag(weak, "*", ""))];
    assert items[1..] == [] && Header([], "") == "";
    assert Header(items, "") == "" + Written(items[0].member) + "" == Opening(weak) + "*\"";
    ScanDecidesList(items, "", contentHash);
    assert Names(items[0].member, contentHash);
  }

  // ---- every field is the writing of some list

  function TakeIn(s: string, characters: string): (r: string)
    ensures AllIn(r, characters) && r + DropIn(s, characters) == s
  {
    if s != "" && s[0] in characters then [s[0]] + TakeIn(s[1..], characters) else ""
  }

  function UntilComma(s: string): (r: string)
    ensures !AtSeparator(s) ==> r != "" && r[0] == s[0]
    ensures ',' !in r && r + FromComma(s) == s && AtSeparator(FromComma(s))
  {
    if s != "" && s[0] != ',' then [s[0]] + UntilComma(s[1..]) else ""
  }

  lemma PaddingComesLast(head: Member, padded: Member)
    requires (head.Any? || head.Tag?) && (padded.Any? || padded.Tag?)
    requires head.pad == "" && padded == head.(pad := padded.pad)
    ensures Written(padded) == Written(head) + padded.pad
  {
    assert Written(head) + padded.pad == Written(padded);
  }

  lemma ReadJunk(head: Member, s: string) returns (m: Member, rest: string)
    requires (head.Any? || head.Tag?) && WellFormed(head) && !AtSeparator(s) && s[0] !in OWS
    ensures WellFormed(m) && AtSeparator(rest) && !m.Unclosed?
    ensures Written(head) + s == Written(m) + rest
  {
    m, rest := Trailed(head, UntilComma(s)), FromComma(s);
    Associate(Written(head), m.junk, rest);
  }

  lemma ReadEnd(head: Member, after: string) returns (m: Member, rest: string)
    requires (head.Any? || head.Tag?) && WellFormed(head) && head.pad == ""
    ensures WellFormed(m) && AtSeparator(rest) && !m.Unclosed?
    ensures Written(head) + after == Written(m) + rest
  {
    var padded := head.(pad := TakeIn(after, OWS));
    rest := DropIn(after, OWS);
    DropInStops(after, OWS);
    PaddingComesLast(head, padded);
    Associate(Written(head), padded.pad, rest);
    m := padded;
    if !AtSeparator(rest) {
      m, rest := ReadJunk(padded, rest);
    }
  }

  lemma ReadTag(weak: bool, t: string) returns (m: Member, rest: string)
    ensures WellFormed(m) && AtSeparator(rest) && (m.Unclosed? ==> rest == "")
    ensures Opening(weak) + t == Written(m) + rest
  {
    FindQuoteIsFirst(t);
    match FindQuote(t)
    case None =>
      m, rest := Unclosed(weak, t), "";
    case Some(i) =>
      var head, after := Tag(weak, t[..i], ""), t[i + 1..];
      m, rest := ReadEnd(head, after);
  }

  lemma ReadMember(s: string) returns (m: Member, rest: string)
    requires s != "" && s[0] !in GAP
    ensures WellFormed(m) && AtSeparator(rest) && (m.Unclosed? ==> rest == "")
    ensures s == Written(m) + rest
  {
    if s[0] == '*' {
      m, rest := ReadEnd(Any(""), s[1..]);
    } else {
      var t, weak := Unprefixed(s), "W/" <= s;
      if t == "" || t[0] != '"' {
        m, rest := Bare(UntilComma(s)), FromComma(s);
      } else {
        m, rest := ReadTag(weak, t[1..]);
        assert s == Opening(weak) + t[1..];
      }
    }
  }

  /** With ScanDecidesList: the matcher's answer is settled for every header value there is. */
  lemma {:induction false} EveryHeaderIsAList(s: string) returns (items: seq<Item>, tail: string)
    ensures IsList(items, tail) && Header(items, tail) == s
    decreases |s|
  {
    var t := DropIn(s, GAP);
    DropInStops(s, GAP);
    if t == "" {
      items, tail := [], s;
      assert TakeIn(s, GAP) + t == TakeIn(s, GAP);
    } else {
      var m, rest := ReadMember(t);
      WrittenStarts(m);
      var gap := TakeIn(s, GAP);
      Associate(gap, Written(m), rest);
      items, tail := EveryHeaderIsAList(rest);
      items := [Item(gap, m)] + items;
    }
  }
}
