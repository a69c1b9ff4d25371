/** Peer invites: printing a node id as a deep link and reading one back. */
module Invite {
  import opened Identity

  const SCHEME: string := "jq-ble"
  const ACTION_PATH: string := "/add-peer/"

  datatype InviteError =
    | Empty
    | InvalidScheme(found: string)
    | InvalidFormat
    | InvalidNodeIdLength(length: nat)
    | InvalidNodeIdHex

  datatype Decoded = Ok(nodeId: NodeId) | Err(error: InviteError)

  // ----- Text helpers -----

  /** The characters with the Unicode White_Space property. */
  predicate IsWhitespace(c: char) {
    var n := c as int;
    (0x09 <= n <= 0x0D) || n == 0x20 || n == 0x85 || n == 0xA0 || n == 0x1680 || (0x2000 <= n <= 0x200A)
    || n == 0x2028 || n == 0x2029 || n == 0x202F || n == 0x205F || n == 0x3000
  }

  predicate AllWhitespace(s: string) { forall i :: 0 <= i < |s| ==> IsWhitespace(s[i]) }

  function TrimStart(s: string): string {
    if |s| > 0 && IsWhitespace(s[0]) then TrimStart(s[1..]) else s
  }

  function TrimEnd(s: string): string {
    if |s| > 0 && IsWhitespace(s[|s| - 1]) then TrimEnd(s[..|s| - 1]) else s
  }

  function Trim(s: string): string { TrimEnd(TrimStart(s)) }

  /** Splits at the first "://". */
  function SplitOnce(s: string): Option<(string, string)> {
    if |s| < 3 then None
    else if s[..3] == "://" then Some(("", s[3..]))
    else match SplitOnce(s[1..])
         case None => None
         case Some((before, after)) => Some(([s[0]] + before, after))
  }

  /** Width of a character in UTF-8, in which string lengths are counted. */
  function Utf8Width(c: char): nat {
    var n := c as int;
    if n < 0x80 then 1 else if n < 0x800 then 2 else if n < 0x10000 then 3 else 4
  }

  function Utf8Length(s: string): nat {
    if |s| == 0 then 0 else Utf8Width(s[0]) + Utf8Length(s[1..])
  }

  // ----- Hexadecimal -----

  function HexDigit(n: nat): char
    requires n < 16
  {
    "0123456789abcdef"[n]
  }

  function HexValue(c: char): Option<nat> {
    if '0' <= c <= '9' then Some(c as int - '0' as int)
    else if 'a' <= c <= 'f' then Some(c as int - 'a' as int + 10)
    else if 'A' <= c <= 'F' then Some(c as int - 'A' as int + 10)
    else None
  }

  function HexEncode(bytes: seq<Byte>): string {
    if |bytes| == 0 then ""
    else [HexDigit(bytes[0] as nat / 16), HexDigit(bytes[0] as nat % 16)] + HexEncode(bytes[1..])
  }

  function HexDecode(s: string): Option<seq<Byte>> {
    if |s| == 0 then Some([])
    else if |s| == 1 || HexValue(s[0]) == None || HexValue(s[1]) == None then None
    else match HexDecode(s[2..])
         case None => None
         case Some(rest) => Some([(HexValue(s[0]).value * 16 + HexValue(s[1]).value) as Byte] + rest)
  }

  // ----- The invite -----

  function EncodePeerInvite(nodeId: NodeId): string {
    SCHEME + "://" + ACTION_PATH + HexEncode(nodeId.bytes)
  }

  function ParseHexId(text: string): Decoded {
    if Utf8Length(text) != 64 then Err(InvalidNodeIdLength(Utf8Length(text)))
    else match HexDecode(text)
         case None => Err(InvalidNodeIdHex)
         case Some(bytes) => if |bytes| != 32 then Err(InvalidNodeIdLength(Utf8Length(text))) else Ok(NodeId(bytes))
  }

  function WithSlash(remainder: string): string {
    if "/" <= remainder then remainder else "/" + remainder
  }

  function DecodePeerInvite(invite: string): Decoded {
    var trimmed := Trim(invite);
    if trimmed == "" then Err(Empty)
    else match SplitOnce(trimmed)
         case None => ParseHexId(trimmed)
         case Some((scheme, remainder)) =>
           if scheme != SCHEME then Err(InvalidScheme(scheme))
           else
             var path := WithSlash(remainder);
             if !(ACTION_PATH <= path) then Err(InvalidFormat)
             else ParseHexId(Trim(path[|ACTION_PATH|..]))
  }

  // ----- Lemmas about the helpers -----

  lemma {:induction false} TrimStartSkips(pre: string, s: string)
    requires AllWhitespace(pre)
    ensures TrimStart(pre + s) == TrimStart(s)
  {
    if |pre| == 0 {
      assert pre + s == s;
    } else {
      assert (pre + s)[1..] == pre[1..] + s;
      TrimStartSkips(pre[1..], s);
    }
  }

  lemma {:induction false} TrimEndSkips(s: string, post: string)
    requires AllWhitespace(post)
    ensures TrimEnd(s + post) == TrimEnd(s)
    decreases |post|
  {
    if |post| == 0 {
      assert s + post == s;
    } else {
      var k := |post| - 1;
      assert (s + post)[|s + post| - 1] == post[k];
      assert (s + post)[..|s + post| - 1] == s + post[..k];
      TrimEndSkips(s, post[..k]);
    }
  }

  lemma {:induction false} AllWhitespaceTrimsAway(s: string)
    requires AllWhitespace(s)
    ensures TrimStart(s) == ""
  {
    if |s| > 0 { AllWhitespaceTrimsAway(s[1..]); }
  }

  lemma {:induction false} TrimStartKeepsTail(s: string, post: string)
    requires !AllWhitespace(s)
    ensures TrimStart(s + post) == TrimStart(s) + post
  {
    if IsWhitespace(s[0]) {
      assert (s + post)[1..] == s[1..] + post;
      var i :| 0 <= i < |s| && !IsWhitespace(s[i]);
      assert s[1..][i - 1] == s[i];
      TrimStartKeepsTail(s[1..], post);
    }
  }

  lemma TrimIgnoresPadding(pre: string, s: string, post: string)
    requires AllWhitespace(pre) && AllWhitespace(post)
    ensures Trim(pre + s + post) == Trim(s)
  {
    assert pre + s + post == pre + (s + post);
    TrimStartSkips(pre, s + post);
    if AllWhitespace(s) {
      AllWhitespaceTrimsAway(s + post);
      AllWhitespaceTrimsAway(s);
    } else {
      TrimStartKeepsTail(s, post);
      TrimEndSkips(TrimStart(s), post);
    }
  }

  lemma {:induction false} SplitOnceIsSplit(s: string)
    ensures SplitOnce(s).Some? ==> s == SplitOnce(s).value.0 + "://" + SplitOnce(s).value.1
  {
    if |s| >= 3 {
      if s[..3] == "://" {
        assert s == s[..3] + s[3..];
      } else if SplitOnce(s).Some? {
        SplitOnceIsSplit(s[1..]);
        assert s == [s[0]] + s[1..];
        var inner := SplitOnce(s[1..]).value;
        assert s == ([s[0]] + inner.0) + "://" + inner.1;
      }
    }
  }

  /** With no colon before it, the first "://" is the one that ends the scheme. */
  lemma {:induction false} SplitOnceFindsScheme(scheme: string, rest: string)
    requires ':' !in scheme
    ensures SplitOnce(scheme + "://" + rest) == Some((scheme, rest))
  {
    var s := scheme + "://" + rest;
    if |scheme| == 0 {
      assert s[..3] == "://" && s[3..] == rest;
    } else {
      assert s[0] == scheme[0] && s[0] != ':';
      assert s[..3][0] != "://"[0];
      assert s[1..] == scheme[1..] + "://" + rest;
      SplitOnceFindsScheme(scheme[1..], rest);
      assert [s[0]] + scheme[1..] == scheme;
    }
  }

  lemma {:induction false} NoColonNoSplit(s: string)
    requires ':' !in s
    ensures SplitOnce(s) == None
  {
    if |s| >= 3 {
      assert s[..3][0] == s[0] != ':';
      NoColonNoSplit(s[1..]);
    }
  }

  lemma HexPairValue(b: Byte)
    ensures var n := b as nat;
      HexValue(HexDigit(n / 16)) == Some(n / 16) && HexValue(HexDigit(n % 16)) == Some(n % 16)
      && (n / 16) * 16 + n % 16 == n
  {
  }

  lemma HexPairDecodes(b: Byte, rest: string)
    ensures HexDecode([HexDigit(b as nat / 16), HexDigit(b as nat % 16)] + rest)
         == match HexDecode(rest) case None => None case Some(bytes) => Some([b] + bytes)
  {
    HexPairValue(b);
    var s := [HexDigit(b as nat / 16), HexDigit(b as nat % 16)] + rest;
    assert s[2..] == rest;
  }

  lemma {:induction false} HexRoundTrip(bytes: seq<Byte>)
    ensures HexDecode(HexEncode(bytes)) == Some(bytes) && |HexEncode(bytes)| == 2 * |bytes|
  {
    if |bytes| > 0 {
      HexRoundTrip(bytes[1..]);
      HexPairDecodes(bytes[0], HexEncode(bytes[1..]));
      assert bytes == [bytes[0]] + bytes[1..];
    }
  }

  /** What decodes is made of hex digits only, two to a byte. */
  lemma {:induction false} HexTextIsPlain(s: string)
    requires HexDecode(s).Some?
    ensures |s| == 2 * |HexDecode(s).value| && Utf8Length(s) == |s|
    ensures forall i :: 0 <= i < |s| ==> HexValue(s[i]).Some?
  {
    if |s| > 0 {
      HexTextIsPlain(s[2..]);
      assert Utf8Length(s) == Utf8Width(s[0]) + Utf8Width(s[1..][0]) + Utf8Length(s[1..][1..]);
      assert s[1..][1..] == s[2..];
      forall i | 0 <= i < |s| ensures HexValue(s[i]).Some? {
        if i >= 2 { assert s[2..][i - 2] == s[i]; }
      }
    }
  }

  lemma HexTextStaysAsIs(s: string)
    requires HexDecode(s).Some?
    ensures Trim(s) == s && ':' !in s
  {
    HexTextIsPlain(s);
  }

  // ----- What invites mean -----

  /** Sixty-four hex digits, in either case, that spell the id. */
  predicate SpellsId(text: string, nodeId: NodeId) {
    |text| == 64 && HexDecode(text) == Some(nodeId.bytes)
  }

  /** The trimmed texts that name the id: bare hex, or the deep link with an optional slash and inner padding. */
  ghost predicate Names(text: string, nodeId: NodeId) {
    || SpellsId(text, nodeId)
    || (exists rest :: text == SCHEME + "://" + ACTION_PATH + rest && SpellsId(Trim(rest), nodeId))
    || (exists rest :: text == SCHEME + "://" + ACTION_PATH[1..] + rest && SpellsId(Trim(rest), nodeId))
  }

  lemma ParseHexIdExact(text: string, nodeId: NodeId)
    ensures ParseHexId(text) == Ok(nodeId) <==> SpellsId(text, nodeId)
  {
    if HexDecode(text).Some? { HexTextIsPlain(text); }
  }

  /** The reader accepts exactly the texts that name an id, and returns that id. */
  lemma DecodesExactly(invite: string, nodeId: NodeId)
    ensures DecodePeerInvite(invite) == Ok(nodeId) <==> Names(Trim(invite), nodeId)
  {
    var t := Trim(invite);
    if DecodePeerInvite(invite) == Ok(nodeId) { AcceptedNames(t, nodeId, invite); }
    if SpellsId(t, nodeId) {
      BareHexDecodes(invite, nodeId);
    } else if rest :| t == SCHEME + "://" + ACTION_PATH + rest && SpellsId(Trim(rest), nodeId) {
      AssociatePath(ACTION_PATH, rest);
      LinkDecodes(invite, ACTION_PATH + rest, rest, nodeId);
    } else if rest :| t == SCHEME + "://" + ACTION_PATH[1..] + rest && SpellsId(Trim(rest), nodeId) {
      AssociatePath(ACTION_PATH[1..], rest);
      LinkDecodes(invite, ACTION_PATH[1..] + rest, rest, nodeId);
    }
  }

  lemma WithSlashExactly(remainder: string, rest: string)
    ensures WithSlash(remainder) == ACTION_PATH + rest
            <==> remainder == ACTION_PATH + rest || remainder == ACTION_PATH[1..] + rest
  {
    assert ACTION_PATH == "/" + ACTION_PATH[1..];
    assert ACTION_PATH + rest == "/" + (ACTION_PATH[1..] + rest);
    if "/" <= remainder {
      assert remainder[0] == '/' && (ACTION_PATH[1..] + rest)[0] == 'a';
    } else {
      assert ("/" + remainder)[1..] == remainder;
      assert (ACTION_PATH + rest)[1..] == ACTION_PATH[1..] + rest;
      assert "/" <= ACTION_PATH + rest;
    }
  }

  lemma BareHexDecodes(invite: string, nodeId: NodeId)
    requires SpellsId(Trim(invite), nodeId)
    ensures DecodePeerInvite(invite) == Ok(nodeId)
  {
    HexTextStaysAsIs(Trim(invite));
    NoColonNoSplit(Trim(invite));
    ParseHexIdExact(Trim(invite), nodeId);
  }

  lemma LinkDecodes(invite: string, remainder: string, rest: string, nodeId: NodeId)
    requires Trim(invite) == SCHEME + "://" + remainder && SpellsId(Trim(rest), nodeId)
    requires remainder == ACTION_PATH + rest || remainder == ACTION_PATH[1..] + rest
    ensures DecodePeerInvite(invite) == Ok(nodeId)
  {
    SplitOnceFindsScheme(SCHEME, remainder);
    WithSlashExactly(remainder, rest);
    assert (ACTION_PATH + rest)[|ACTION_PATH|..] == rest;
    ParseHexIdExact(Trim(rest), nodeId);
  }

  lemma AcceptedNames(t: string, nodeId: NodeId, invite: string)
    requires t == Trim(invite) && DecodePeerInvite(invite) == Ok(nodeId)
    ensures Names(t, nodeId)
  {
    if SplitOnce(t) == None {
      ParseHexIdExact(t, nodeId);
    } else {
      SplitOnceIsSplit(t);
      var remainder := SplitOnce(t).value.1;
      var rest := WithSlash(remainder)[|ACTION_PATH|..];
      ParseHexIdExact(Trim(rest), nodeId);
      assert WithSlash(remainder) == ACTION_PATH + rest;
      WithSlashExactly(remainder, rest);
      AssociatePath(ACTION_PATH, rest);
      AssociatePath(ACTION_PATH[1..], rest);
    }
  }

  lemma AssociatePath(path: string, rest: string)
    ensures SCHEME + "://" + (path + rest) == SCHEME + "://" + path + rest
  {
  }

  lemma LinkIsPlain(nodeId: NodeId)
    ensures EncodePeerInvite(nodeId) == SCHEME + "://" + (ACTION_PATH + HexEncode(nodeId.bytes))
    ensures Trim(EncodePeerInvite(nodeId)) == EncodePeerInvite(nodeId)
  {
    var hex := HexEncode(nodeId.bytes);
    HexRoundTrip(nodeId.bytes);
    HexTextIsPlain(hex);
    AssociatePath(ACTION_PATH, hex);
    var link := EncodePeerInvite(nodeId);
    assert link[0] == 'j' && link[|link| - 1] == hex[|hex| - 1];
  }

  lemma {:induction false} TrimsToNothing(s: string)
    ensures Trim(s) == "" <==> AllWhitespace(s)
  {
    if AllWhitespace(s) {
      AllWhitespaceTrimsAway(s);
    } else {
      TrimStartStops(s);
      TrimEndKeepsFirst(TrimStart(s));
    }
  }

  lemma {:induction false} TrimStartStops(s: string)
    requires !AllWhitespace(s)
    ensures |TrimStart(s)| > 0 && !IsWhitespace(TrimStart(s)[0])
  {
    if IsWhitespace(s[0]) {
      var i :| 0 <= i < |s| && !IsWhitespace(s[i]);
      assert s[1..][i - 1] == s[i];
      TrimStartStops(s[1..]);
    }
  }

  lemma {:induction false} TrimEndKeepsFirst(s: string)
    requires |s| > 0 && !IsWhitespace(s[0])
    ensures |TrimEnd(s)| > 0
  {
    if IsWhitespace(s[|s| - 1]) { TrimEndKeepsFirst(s[..|s| - 1]); }
  }

  /** The answer to digits: the id they spell, or why they do not spell one. */
  predicate DigitsAnswered(text: string, answer: Decoded) {
    if Utf8Length(text) != 64 then answer == Err(InvalidNodeIdLength(Utf8Length(text)))
    else if HexDecode(text) == None then answer == Err(InvalidNodeIdHex)
    else answer.Ok? && HexDecode(text) == Some(answer.nodeId.bytes)
  }

  /** Every rejection says why: nothing there, a foreign scheme, a foreign path, or digits that spell no id. */
  lemma RejectionsSayWhy(invite: string, scheme: string, rest: string)
    ensures DecodePeerInvite(invite) == Err(Empty) <==> AllWhitespace(invite)
    ensures ':' !in scheme && scheme != SCHEME && Trim(invite) == scheme + "://" + rest ==>
              DecodePeerInvite(invite) == Err(InvalidScheme(scheme))
    ensures Trim(invite) == SCHEME + "://" + rest && !(ACTION_PATH <= WithSlash(rest)) ==>
              DecodePeerInvite(invite) == Err(InvalidFormat)
    ensures Trim(invite) == SCHEME + "://" + (ACTION_PATH + rest) ==>
              DigitsAnswered(Trim(rest), DecodePeerInvite(invite))
    ensures ':' !in Trim(invite) && !AllWhitespace(invite) ==> DigitsAnswered(Trim(invite), DecodePeerInvite(invite))
  {
    TrimsToNothing(invite);
    var t := Trim(invite);
    if ':' !in scheme && t == scheme + "://" + rest { SplitOnceFindsScheme(scheme, rest); }
    if t == SCHEME + "://" + rest { SplitOnceFindsScheme(SCHEME, rest); }
    if t == SCHEME + "://" + (ACTION_PATH + rest) {
      SplitOnceFindsScheme(SCHEME, ACTION_PATH + rest);
      WithSlashExactly(ACTION_PATH + rest, rest);
      assert (ACTION_PATH + rest)[|ACTION_PATH|..] == rest;
      DigitsAreAnswered(Trim(rest));
    }
    if ':' !in t {
      NoColonNoSplit(t);
      DigitsAreAnswered(t);
    }
  }

  lemma DigitsAreAnswered(text: string)
    ensures DigitsAnswered(text, ParseHexId(text))
  {
    if HexDecode(text).Some? { HexTextIsPlain(text); }
  }

  /** Every id survives printing and reading, with any padding around the link. */
  lemma InviteRoundTrip(nodeId: NodeId, pre: string, post: string)
    requires AllWhitespace(pre) && AllWhitespace(post)
    ensures DecodePeerInvite(pre + EncodePeerInvite(nodeId) + post) == Ok(nodeId)
    ensures DecodePeerInvite(pre + HexEncode(nodeId.bytes) + post) == Ok(nodeId)
  {
    var hex := HexEncode(nodeId.bytes);
    var link := EncodePeerInvite(nodeId);
    HexRoundTrip(nodeId.bytes);
    HexTextStaysAsIs(hex);
    TrimIgnoresPadding(pre, link, post);
    LinkIsPlain(nodeId);
    LinkDecodes(pre + link + post, ACTION_PATH + hex, hex, nodeId);
    TrimIgnoresPadding(pre, hex, post);
    assert SpellsId(Trim(pre + hex + post), nodeId);
    DecodesExactly(pre + hex + post, nodeId);
  }

  /** Padding never matters; and what was accepted, printed canonically, is read as the same id. */
  lemma AcceptedInvitesAreCanonical(invite: string, pre: string, post: string)
    requires AllWhitespace(pre) && AllWhitespace(post)
    ensures DecodePeerInvite(pre + invite + post) == DecodePeerInvite(invite)
    ensures DecodePeerInvite(invite).Ok? ==>
              DecodePeerInvite(EncodePeerInvite(DecodePeerInvite(invite).nodeId)) == DecodePeerInvite(invite)
  {
    TrimIgnoresPadding(pre, invite, post);
    if DecodePeerInvite(invite).Ok? {
      var nodeId := DecodePeerInvite(invite).nodeId;
      InviteRoundTrip(nodeId, "", "");
      assert "" + EncodePeerInvite(nodeId) + "" == EncodePeerInvite(nodeId);
    }
  }
}
