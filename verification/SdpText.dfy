/** The crypto attribute of SDP (RFC 4568): how a profile is printed and parsed. */
module SdpText {
  import opened Options

  type byte = x: int | 0 <= x < 0x100

  const MAX_INT64 := 0x7fff_ffff_ffff_ffff
  const MIN_INT64 := -0x8000_0000_0000_0000
  type Int64 = x: int | MIN_INT64 <= x <= MAX_INT64

  /** Cipher suites that are supported. */
  datatype Cipher = Aes128Sha80 | Aes128Sha32 | Aes256Sha80 | Aes256Sha32

  function ParseCipher(name: string): Option<Cipher> {
    if name == "AES_CM_128_HMAC_SHA1_80" then Some(Aes128Sha80)
    else if name == "AES_CM_128_HMAC_SHA1_32" then Some(Aes128Sha32)
    else if name == "AES_256_CM_HMAC_SHA1_80" then Some(Aes256Sha80)
    else if name == "AES_256_CM_HMAC_SHA1_32" then Some(Aes256Sha32)
    else None
  }

  function KeyLen(c: Cipher): nat {
    if c.Aes128Sha80? || c.Aes128Sha32? then 16 else 32
  }

  datatype Profile = Profile(index: Int64, name: string, key: seq<byte>, salt: seq<byte>, mki: seq<byte>, lifetime: nat)

  /**
    The parts of the parser that are not modelled: base64, and the optional lifetime and MKI
    parameters. None stands for an error.
   */
  datatype Codec = Codec(encode: seq<byte> -> string, decode: string -> Option<seq<byte>>,
                         lifetime: string -> Option<nat>, mki: string -> Option<seq<byte>>)

  /** Decoding undoes encoding, and encoded text has no white space and no bar. */
  ghost predicate Sound(b: Codec) {
    forall x: seq<byte> :: b.decode(b.encode(x)) == Some(x) && Plain(b.encode(x))
  }

  predicate IsSpace(c: char) {
    c in {'\t', '\n', '\U{b}', '\U{c}', '\r', ' ', '\U{85}', '\U{a0}', '\U{1680}', '\U{2028}', '\U{2029}', '\U{202f}', '\U{205f}', '\U{3000}'}
    || '\U{2000}' <= c <= '\U{200a}'
  }

  predicate Plain(s: string) {
    forall i :: 0 <= i < |s| ==> !IsSpace(s[i]) && s[i] != '|'
  }

  // ----- numbers

  function Digit(d: nat): char
    requires d < 10
  {
    '0' + d as char
  }

  function Digits(n: nat): (s: string)
    ensures |s| > 0
    ensures forall i :: 0 <= i < |s| ==> '0' <= s[i] <= '9'
  {
    if n < 10 then [Digit(n)] else Digits(n / 10) + [Digit(n % 10)]
  }

  function Itoa(n: int): (s: string)
    ensures |s| > 0
    ensures forall i :: 0 <= i < |s| ==> '0' <= s[i] <= '9' || s[i] == '-'
  {
    if n < 0 then "-" + Digits(-n) else Digits(n)
  }

  /** The value of a string of digits, None when it has another character. */
  function Value(s: string): Option<nat> {
    if |s| == 0 then Some(0)
    else
      var c, v := s[|s| - 1], Value(s[..|s| - 1]);
      if v.None? || !('0' <= c <= '9') then None else Some(10 * v.value + (c - '0') as int)
  }

  function Signed(negative: bool, n: nat): int {
    if negative then 0 - n else n
  }

  /** A signed decimal number that fits 64 bits. */
  function Atoi(s: string): Option<Int64> {
    var digits := if |s| > 0 && s[0] in {'+', '-'} then s[1..] else s;
    var v := if |digits| == 0 then None else Value(digits);
    if v.None? then None
    else
      var n := Signed(s[0] == '-', v.value);
      if MIN_INT64 <= n <= MAX_INT64 then Some(n) else None
  }

  lemma {:induction false} ValueOfDigits(n: nat)
    ensures Value(Digits(n)) == Some(n)
  {
    if n >= 10 {
      ValueOfDigits(n / 10);
      assert Digits(n)[..|Digits(n)| - 1] == Digits(n / 10);
    } else {
      assert Digits(n)[..0] == "";
    }
  }

  lemma AtoiOfItoa(n: Int64)
    ensures Atoi(Itoa(n)) == Some(n)
  {
    hide Value, Digits;
    var m: int := n;
    ValueOfDigits(if m < 0 then -m else m);
    if m < 0 { assert Itoa(m)[1..] == Digits(-m); }
  }

  // ----- splitting

  /** The first position of c in s, or |s|. */
  function Find(s: string, c: char): (i: nat)
    ensures i <= |s| && (forall k :: 0 <= k < i ==> s[k] != c) && (i < |s| ==> s[i] == c)
  {
    if |s| == 0 || s[0] == c then 0 else 1 + Find(s[1..], c)
  }

  lemma FindConcat(a: string, c: char, rest: string)
    requires forall k :: 0 <= k < |a| ==> a[k] != c
    ensures Find(a + [c] + rest, c) == |a|
  {
    hide Find;
    var s := a + [c] + rest;
    assert s[|a|] == c && s[..|a|] == a;
    assert forall k :: 0 <= k < |a| ==> s[k] == a[k];
  }

  function TrimLeft(s: string): string {
    if |s| > 0 && IsSpace(s[0]) then TrimLeft(s[1..]) else s
  }

  function TrimRight(s: string): string {
    if |s| > 0 && IsSpace(s[|s| - 1]) then TrimRight(s[..|s| - 1]) else s
  }

  function TrimSpace(s: string): string {
    TrimRight(TrimLeft(s))
  }

  const INLINE: string := "inline:"

  // ----- the attribute

  /** The value of the crypto attribute; neither MKI nor lifetime is printed. */
  function Print(p: Profile, b: Codec): string {
    Itoa(p.index) + " " + p.name + " " + INLINE + b.encode(p.key + p.salt)
  }

  datatype Parsed = Ignored | Bad | Good(p: Profile)

  datatype Fields = TooFew | Fields(first: string, second: string, rest: string)

  /** The first two fields of a string and what follows them. */
  function SplitThree(s: string): Fields {
    var i := Find(s, ' ');
    if i == |s| then TooFew
    else
      var t := s[i + 1..];
      var j := Find(t, ' ');
      if j == |t| then TooFew else Fields(s[..i], t[..j], t[j + 1..])
  }

  lemma SplitThreeOf(a: string, b: string, c: string)
    requires ' ' !in a && ' ' !in b
    ensures SplitThree(a + " " + b + " " + c) == Fields(a, b, c)
  {
    hide Find;
    var t := b + [' '] + c;
    var s := a + [' '] + t;
    assert a + " " + b + " " + c == s;
    FindConcat(a, ' ', t);
    assert s[..|a|] == a && s[|a| + 1..] == t;
    FindConcat(b, ' ', c);
    assert t[..|b|] == b && t[|b| + 1..] == c;
  }

  function Parse(val: string, b: Codec): Parsed {
    var f := SplitThree(TrimSpace(val));
    if f.TooFew? then Ignored else ParseParts(f.first, f.second, f.rest, b)
  }

  function ParseParts(index: string, name: string, keys: string, b: Codec): Parsed {
    var n := Atoi(index);
    if n.None? then Bad
    else if !(INLINE <= keys) then Ignored
    else if ' ' in keys[|INLINE|..] || '\t' in keys[|INLINE|..] then Ignored
    else ParseKeys(n.value, name, keys[|INLINE|..], b)
  }

  function ParseKeys(index: Int64, name: string, keys: string, b: Codec): Parsed {
    var i := Find(keys, '|');
    var material := b.decode(keys[..i]);
    if material.None? then Bad
    else
      var params := if i < |keys| then keys[i + 1..] else "";
      var j := Find(params, '|');
      var rest := if j < |params| then params[j + 1..] else "";
      var lifetime := if j == 0 then Some(0) else b.lifetime(params[..j]);
      var mki := if Find(rest, '|') == 0 then Some([]) else b.mki(rest[..Find(rest, '|')]);
      if lifetime.None? || mki.None? then Bad
      else Split(Profile(index, name, material.value, [], mki.value, lifetime.value))
  }

  /** Cuts the key material of a supported cipher into key and salt. */
  function Split(p: Profile): Parsed {
    var c := ParseCipher(p.name);
    if c.None? then Good(p)
    else if |p.key| < KeyLen(c.value) then Bad
    else Good(p.(key := p.key[..KeyLen(c.value)], salt := p.key[KeyLen(c.value)..]))
  }

  /** A supported profile whose key has the length of its cipher. */
  predicate Proper(p: Profile) {
    var c := ParseCipher(p.name);
    c.Some? && |p.key| == KeyLen(c.value)
  }

  lemma SupportedNames(name: string)
    requires ParseCipher(name).Some?
    ensures ' ' !in name
  {
  }

  lemma TrimNothing(s: string)
    requires |s| > 0 && !IsSpace(s[0]) && !IsSpace(s[|s| - 1])
    ensures TrimSpace(s) == s
  {
    hide IsSpace;
  }

  /** How many of n bytes of key material are the master key: 16 or 32 for the supported ciphers, else all. */
  function KeyBytes(name: string, n: nat): nat {
    if name == "AES_CM_128_HMAC_SHA1_80" || name == "AES_CM_128_HMAC_SHA1_32" then 16
    else if name == "AES_256_CM_HMAC_SHA1_80" || name == "AES_256_CM_HMAC_SHA1_32" then 32
    else n
  }

  lemma SplitCuts(p: Profile)
    requires p.salt == []
    ensures var n := KeyBytes(p.name, |p.key|);
            Split(p) == if |p.key| < n then Bad else Good(p.(key := p.key[..n], salt := p.key[n..]))
  {
    if p.name == "AES_CM_128_HMAC_SHA1_80" {
    } else if p.name == "AES_CM_128_HMAC_SHA1_32" {
    } else if p.name == "AES_256_CM_HMAC_SHA1_80" {
    } else if p.name == "AES_256_CM_HMAC_SHA1_32" {
    }
  }

  /**
    Printing and parsing gives the profile back, without MKI and lifetime, its key material cut anew
    into key and salt; it is in error exactly when that is shorter than the key of its cipher. Only a
    space in the name can spoil it.
   */
  lemma PrintParse(p: Profile, b: Codec)
    requires Sound(b) && ' ' !in p.name
    ensures var m := p.key + p.salt;
            var n := KeyBytes(p.name, |m|);
            Parse(Print(p, b), b) ==
              if |m| < n then Bad else Good(p.(key := m[..n], salt := m[n..], mki := [], lifetime := 0))
  {
    var m := p.key + p.salt;
    PrintSplits(p, b);
    SplitCuts(p.(key := m, salt := [], mki := [], lifetime := 0));
    hide Print, Parse, Split, KeyBytes;
  }

  /** Digits are decimal, the most significant first. */
  lemma IndexText()
    ensures Itoa(1) == "1" && Itoa(10) == "10" && Itoa(205) == "205" && Itoa(-7) == "-7"
  {
    assert Digits(20) == "20" && Digits(205) == "205";
  }

  /** The attribute as section 9.1 of RFC 4568 writes it, for the tag 1. */
  lemma AttributeText(p: Profile, b: Codec)
    requires p.index == 1
    ensures Print(p, b) == "1 " + p.name + " inline:" + b.encode(p.key + p.salt)
  {
    hide Itoa;
    IndexText();
    var text := b.encode(p.key + p.salt);
    assert Print(p, b) == "1" + " " + p.name + " " + "inline:" + text;
    assert "1" + " " == "1 ";
    assert " " + "inline:" == " inline:";
    assert "1 " + p.name + " " + "inline:" == "1 " + p.name + " inline:";
  }

  /** Keys in another form are ignored, unless the tag is not a number. */
  lemma OtherKeysAreIgnored(index: string, name: string, keys: string, b: Codec)
    requires |keys| < 7 || keys[..7] != "inline:"
    ensures ParseParts(index, name, keys, b) == if Atoi(index).None? then Bad else Ignored
  {
    hide Atoi;
  }

  lemma PrintSplits(p: Profile, b: Codec)
    requires Sound(b) && ' ' !in p.name
    ensures Parse(Print(p, b), b) == Split(p.(key := p.key + p.salt, salt := [], mki := [], lifetime := 0))
  {
    hide Itoa, Atoi, TrimSpace, SplitThree, ParseParts, Split, IsSpace;
    var text := b.encode(p.key + p.salt);
    assert Plain(text) && b.decode(text) == Some(p.key + p.salt);
    var index := Itoa(p.index);
    AtoiOfItoa(p.index);
    EndsPlain(index + " " + p.name + " ", text);
    StartsPlain(p.index, " " + p.name + " " + INLINE + text);
    var s := Print(p, b);
    assert s == index + (" " + p.name + " " + INLINE + text) == index + " " + p.name + " " + (INLINE + text);
    assert s == (index + " " + p.name + " ") + INLINE + text;
    TrimNothing(s);
    SplitThreeOf(index, p.name, INLINE + text);
    PartsParse(p, index, text, b);
  }

  /** A proper profile survives printing and parsing, except for its MKI and lifetime. */
  lemma ProperSurvives(p: Profile, b: Codec)
    requires Sound(b) && Proper(p)
    ensures Parse(Print(p, b), b) == Good(p.(mki := [], lifetime := 0))
  {
    hide Print, Parse;
    assert ' ' !in p.name by { SupportedNames(p.name); }
    PrintSplits(p, b);
    var n := KeyLen(ParseCipher(p.name).value);
    assert (p.key + p.salt)[..n] == p.key && (p.key + p.salt)[n..] == p.salt;
  }

  lemma StartsPlain(n: int, rest: string)
    ensures !IsSpace((Itoa(n) + rest)[0])
  {
    hide Itoa;
    assert (Itoa(n) + rest)[0] == Itoa(n)[0];
  }

  lemma EndsPlain(head: string, text: string)
    requires Plain(text)
    ensures var s := head + INLINE + text; |s| > 0 && !IsSpace(s[|s| - 1])
  {
    var s := head + INLINE + text;
    if |text| == 0 {
      assert s == head + INLINE;
      assert s[|s| - 1] == INLINE[|INLINE| - 1] == ':';
    } else {
      assert s[|s| - 1] == text[|text| - 1];
    }
  }

  lemma PartsParse(p: Profile, index: string, text: string, b: Codec)
    requires Plain(text) && b.decode(text) == Some(p.key + p.salt) && Atoi(index) == Some(p.index)
    ensures ParseParts(index, p.name, INLINE + text, b)
         == Split(p.(key := p.key + p.salt, salt := [], mki := [], lifetime := 0))
  {
    hide Split, Atoi;
    var keys := INLINE + text;
    assert keys[|INLINE|..] == text;
    assert Find(text, '|') == |text| && text[..|text|] == text;
  }

  // ----- lists of attributes

  function PrintAll(ps: seq<Profile>, b: Codec): seq<string> {
    seq(|ps|, i requires 0 <= i < |ps| => Print(ps[i], b))
  }

  /** What a description's crypto attributes parse to; None when one of them is in error. */
  function ParseAll(vals: seq<string>, b: Codec): Option<seq<Profile>> {
    if |vals| == 0 then Some([])
    else
      var before, last := ParseAll(vals[..|vals| - 1], b), Parse(vals[|vals| - 1], b);
      if before.None? || last.Bad? then None
      else Some(before.value + if last.Good? then [last.p] else [])
  }

  method AppendProfiles(attrs: seq<string>, ps: seq<Profile>, b: Codec) returns (r: seq<string>)
    ensures r == attrs + PrintAll(ps, b)
  {
    hide Print;
    r := attrs;
    for i := 0 to |ps|
      invariant r == attrs + PrintAll(ps, b)[..i]
    {
      r := r + [Print(ps[i], b)];
    }
  }

  method ParseProfiles(vals: seq<string>, b: Codec) returns (r: Option<seq<Profile>>)
    ensures r == ParseAll(vals, b)
  {
    hide Parse;
    var ps: seq<Profile> := [];
    for i := 0 to |vals|
      invariant ParseAll(vals[..i], b) == Some(ps)
    {
      assert vals[..i + 1][..i] == vals[..i];
      match Parse(vals[i], b)
      case Bad =>
        BadPrefix(vals, i + 1, b);
        return None;
      case Ignored => assert ps + [] == ps;
      case Good(p) => ps := ps + [p];
    }
    assert vals[..|vals|] == vals;
    r := Some(ps);
  }

  lemma {:induction false} BadPrefix(vals: seq<string>, n: nat, b: Codec)
    requires n <= |vals| && ParseAll(vals[..n], b) == None
    ensures ParseAll(vals, b) == None
  {
    if n < |vals| {
      assert vals[..|vals| - 1][..n] == vals[..n];
      BadPrefix(vals[..|vals| - 1], n, b);
    } else {
      assert vals[..n] == vals;
    }
  }

  /** Supported profiles have the key length of their cipher, others a name without a space. */
  predicate Usable(p: Profile) {
    Proper(p) || (ParseCipher(p.name).None? && ' ' !in p.name)
  }

  /** What the other end sees of a usable profile. */
  function Seen(p: Profile): Profile {
    if ParseCipher(p.name).Some? then p.(mki := [], lifetime := 0)
    else p.(key := p.key + p.salt, salt := [], mki := [], lifetime := 0)
  }

  function SeenAll(ps: seq<Profile>): seq<Profile> {
    seq(|ps|, i requires 0 <= i < |ps| => Seen(ps[i]))
  }

  /** A list of usable profiles arrives in order and complete. */
  lemma {:induction false} PrintParseAll(ps: seq<Profile>, b: Codec)
    requires Sound(b) && forall i :: 0 <= i < |ps| ==> Usable(ps[i])
    ensures ParseAll(PrintAll(ps, b), b) == Some(SeenAll(ps))
  {
    hide Print, Parse, ParseCipher;
    if |ps| > 0 {
      var n := |ps| - 1;
      PrintParseAll(ps[..n], b);
      assert PrintAll(ps, b)[..n] == PrintAll(ps[..n], b);
      if Proper(ps[n]) { ProperSurvives(ps[n], b); } else { PrintSplits(ps[n], b); }
      assert SeenAll(ps) == SeenAll(ps[..n]) + [Seen(ps[n])];
    }
  }
}
