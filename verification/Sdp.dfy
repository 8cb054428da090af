/** Offer and answer: the choice of codec, DTMF payload and SRTP keys on both ends. */
module Sdp {
  import opened Options
  import opened SdpText

  const DTMF_NAME: string := "telephone-event"

  datatype Encryption = NoEncryption | Allow | Require

  datatype CodecInfo = CodecInfo(typ: byte, name: string, priority: int, clock: int)

  datatype Audio = Audio(codec: CodecInfo, dtmf: Option<CodecInfo>)

  datatype Keys = Keys(localKey: seq<byte>, localSalt: seq<byte>, remoteKey: seq<byte>, remoteSalt: seq<byte>)

  /** An empty key indicator is one that is not set. */
  datatype Config = Config(keys: Keys, cipher: Cipher, localMki: seq<byte>, remoteMki: seq<byte>)

  // ----- audio

  /** Codec c is entry i: the first one of an answer, the first of highest priority of an offer. */
  ghost predicate IsAudio(audio: seq<CodecInfo>, answer: bool, i: int, c: CodecInfo) {
    && 0 <= i < |audio| && audio[i] == c
    && if answer then i == 0
       else
         && (forall k :: 0 <= k < |audio| ==> audio[k].priority <= c.priority)
         && (forall k :: 0 <= k < i ==> audio[k].priority < c.priority)
  }

  predicate IsEvents(d: CodecInfo, clock: int) {
    d.name == DTMF_NAME && d.clock == clock
  }

  predicate IsSlower(d: CodecInfo, clock: int) {
    d.name == DTMF_NAME && d.clock <= clock
  }

  /**
    Entry k is the DTMF payload d for an audio clock rate: the first one with that rate; else the
    first of the highest lower rate; or, when all lower rates are negative, the last.
   */
  ghost predicate IsDtmf(data: seq<CodecInfo>, clock: int, k: int, d: CodecInfo) {
    && 0 <= k < |data| && data[k] == d
    && if exists i :: 0 <= i < |data| && IsEvents(data[i], clock) then
         IsEvents(d, clock) && forall i :: 0 <= i < k ==> !IsEvents(data[i], clock)
       else
         IsBestSlower(data, clock, k, d)
  }

  ghost predicate IsBestSlower(data: seq<CodecInfo>, clock: int, k: int, d: CodecInfo) {
    && 0 <= k < |data| && data[k] == d && IsSlower(d, clock)
    && (d.clock >= 0 ==>
          && (forall i :: 0 <= i < |data| && IsSlower(data[i], clock) ==> data[i].clock <= d.clock)
          && (forall i :: 0 <= i < k && IsSlower(data[i], clock) ==> data[i].clock < d.clock))
    && (d.clock < 0 ==>
          && (forall i :: 0 <= i < |data| && IsSlower(data[i], clock) ==> data[i].clock < 0)
          && (forall i :: k < i < |data| ==> !IsSlower(data[i], clock)))
  }

  /** The DTMF payload for an audio clock rate, None when no entry is slow enough. */
  ghost predicate SelectedDtmf(data: seq<CodecInfo>, clock: int, r: Option<CodecInfo>) {
    match r
    case None => forall k :: 0 <= k < |data| ==> !IsSlower(data[k], clock)
    case Some(d) => exists k :: IsDtmf(data, clock, k, d)
  }

  /** What SelectAudio answers for a description; None is "no common media". */
  ghost predicate Selected(audio: seq<CodecInfo>, data: seq<CodecInfo>, answer: bool, r: Option<Audio>) {
    match r
    case None => audio == []
    case Some(a) => (exists i :: IsAudio(audio, answer, i, a.codec)) && SelectedDtmf(data, a.codec.clock, a.dtmf)
  }

  method SelectAudio(audio: seq<CodecInfo>, data: seq<CodecInfo>, answer: bool) returns (r: Option<Audio>)
    ensures Selected(audio, data, answer, r)
  {
    var priority, best := 0, -1;
    for i := 0 to |audio|
      invariant -1 <= best < i || best == -1 == i - 1
      invariant best == -1 <==> i == 0
      invariant answer ==> i == 0
      invariant best >= 0 ==> priority == audio[best].priority && IsAudio(audio[..i], answer, best, audio[best])
    {
      if best == -1 || audio[i].priority > priority {
        best, priority := i, audio[i].priority;
      }
      if answer { break; }
    }
    if best == -1 { return None; }
    assert IsAudio(audio, answer, best, audio[best]) by { assert audio[..|audio|] == audio; }
    var clock := audio[best].clock;
    var k := SelectDtmf(data, clock);
    r := Some(Audio(audio[best], if k < 0 then None else Some(data[k])));
  }

  method SelectDtmf(data: seq<CodecInfo>, clock: int) returns (r: int)
    ensures -1 <= r < |data|
    ensures r < 0 ==> forall k :: 0 <= k < |data| ==> !IsSlower(data[k], clock)
    ensures r >= 0 ==> IsDtmf(data, clock, r, data[r])
  {
    for i := 0 to |data|
      invariant forall k :: 0 <= k < i ==> !IsEvents(data[k], clock)
    {
      if IsEvents(data[i], clock) { return i; }
    }
    var maxRate := -1;
    r := -1;
    for i := 0 to |data|
      invariant -1 <= r < i || r == -1
      invariant r < 0 ==> maxRate == -1 && forall k :: 0 <= k < i ==> !IsSlower(data[k], clock)
      invariant r >= 0 ==> maxRate == data[r].clock && IsBestSlower(data[..i], clock, r, data[r])
    {
      var d := data[i];
      if d.name != DTMF_NAME || d.clock > clock { continue; }
      if maxRate < 0 || d.clock > maxRate { maxRate, r := d.clock, i; }
    }
    assert data[..|data|] == data;
  }

  lemma DtmfIsUnique(data: seq<CodecInfo>, clock: int, r: Option<CodecInfo>, s: Option<CodecInfo>)
    requires SelectedDtmf(data, clock, r) && SelectedDtmf(data, clock, s)
    ensures r == s
  {
    if r.Some? {
      var k :| IsDtmf(data, clock, k, r.value);
      assert IsSlower(data[k], clock);
      var m :| IsDtmf(data, clock, m, s.value);
      assert IsSlower(data[m], clock);
      assert k <= m && m <= k;
    }
  }

  /** The choice is determined by the description. */
  lemma SelectedIsUnique(audio: seq<CodecInfo>, data: seq<CodecInfo>, answer: bool, r: Option<Audio>, s: Option<Audio>)
    requires Selected(audio, data, answer, r) && Selected(audio, data, answer, s)
    ensures r == s
  {
    hide SelectedDtmf;
    if r.Some? && s.Some? {
      var i :| IsAudio(audio, answer, i, r.value.codec);
      var j :| IsAudio(audio, answer, j, s.value.codec);
      assert i <= j && j <= i;
      DtmfIsUnique(data, r.value.codec.clock, r.value.dtmf, s.value.dtmf);
    }
  }

  /** The audio and data entries of an answer. */
  function AnswerData(a: Audio): seq<CodecInfo> {
    if a.dtmf.None? then [] else [a.dtmf.value]
  }

  /** The offerer reads from the answer the very codec and DTMF payload that were chosen. */
  lemma AnswerReselects(audio: seq<CodecInfo>, data: seq<CodecInfo>, a: Audio, r: Option<Audio>)
    requires Selected(audio, data, false, Some(a))
    requires Selected([a.codec], AnswerData(a), true, r)
    ensures r == Some(a)
  {
    assert IsAudio([a.codec], true, 0, a.codec);
    if a.dtmf.Some? {
      var k :| IsDtmf(data, a.codec.clock, k, a.dtmf.value);
      assert IsDtmf([a.dtmf.value], a.codec.clock, 0, a.dtmf.value) by {
        assert IsSlower(a.dtmf.value, a.codec.clock);
        assert forall i :: 0 <= i < 1 ==> [a.dtmf.value][i] == a.dtmf.value;
      }
    }
    hide SelectedDtmf, IsAudio, IsDtmf;
    assert SelectedDtmf(AnswerData(a), a.codec.clock, a.dtmf);
    SelectedIsUnique([a.codec], AnswerData(a), true, r, Some(a));
  }

  // ----- keys

  /** The first profile of a name, or the length. */
  function IndexOf(ps: seq<Profile>, name: string): (i: nat)
    ensures i <= |ps| && (i < |ps| ==> ps[i].name == name)
    ensures forall k :: 0 <= k < i ==> ps[k].name != name
  {
    if |ps| == 0 || ps[0].name == name then 0 else 1 + IndexOf(ps[1..], name)
  }

  predicate Common(offer: seq<Profile>, p: Profile) {
    ParseCipher(p.name).Some? && IndexOf(offer, p.name) < |offer|
  }

  /** The first of the answerer's profiles that is supported and offered, or the length. */
  function Match(offer: seq<Profile>, answer: seq<Profile>): (j: nat)
    ensures j <= |answer| && (j < |answer| ==> Common(offer, answer[j]))
    ensures forall k :: 0 <= k < j ==> !Common(offer, answer[k])
  {
    if |answer| == 0 || Common(offer, answer[0]) then 0 else 1 + Match(offer, answer[1..])
  }

  datatype Choice = Choice(conf: Config, prof: Profile)

  /** The configuration made of an offered and an answered profile of one name. */
  function Pair(off: Profile, ans: Profile, swap: bool): Choice
    requires ParseCipher(ans.name).Some?
  {
    var cipher := ParseCipher(ans.name).value;
    if swap then
      Choice(Config(Keys(ans.key, ans.salt, off.key, off.salt), cipher, ans.mki, off.mki), ans.(index := off.index))
    else
      Choice(Config(Keys(off.key, off.salt, ans.key, ans.salt), cipher, off.mki, ans.mki), off)
  }

  function Chosen(offer: seq<Profile>, answer: seq<Profile>, swap: bool): Option<Choice> {
    var j := Match(offer, answer);
    if j == |answer| then None else Some(Pair(offer[IndexOf(offer, answer[j].name)], answer[j], swap))
  }

  method SelectCrypto(offer: seq<Profile>, answer: seq<Profile>, swap: bool) returns (r: Option<Choice>)
    ensures r == Chosen(offer, answer, swap)
  {
    if |offer| == 0 {
      return None;
    }
    for j := 0 to |answer|
      invariant forall k :: 0 <= k < j ==> !Common(offer, answer[k])
    {
      var ans := answer[j];
      var cipher := ParseCipher(ans.name);
      if cipher.None? { continue; }
      var i := IndexOf(offer, ans.name);
      if i < |offer| {
        var off := offer[i];
        var keys := Keys(off.key, off.salt, ans.key, ans.salt);
        if swap {
          keys := keys.(localKey := keys.remoteKey, remoteKey := keys.localKey);
          keys := keys.(localSalt := keys.remoteSalt, remoteSalt := keys.localSalt);
        }
        var localMki, remoteMki := off.mki, ans.mki;
        if swap { localMki, remoteMki := remoteMki, localMki; }
        var prof := off;
        if swap { prof := ans.(index := off.index); }
        MatchIs(offer, answer, j);
        return Some(Choice(Config(keys, cipher.value, localMki, remoteMki), prof));
      }
    }
    r := None;
  }

  lemma MatchIs(offer: seq<Profile>, answer: seq<Profile>, j: nat)
    requires j < |answer| && Common(offer, answer[j])
    requires forall k :: 0 <= k < j ==> !Common(offer, answer[k])
    ensures Match(offer, answer) == j
  {
    hide Common;
  }

  // ----- both ends

  datatype Failure = NoCommonMedia | NoCommonCrypto

  datatype Result = Failed(why: Failure) | Agreed(audio: Audio, conf: Option<Config>, prof: Option<Profile>)

  /** The keys of one end: its profiles are used unless the peer has none or encryption is off. */
  function Crypto(peer: seq<Profile>, enc: Encryption, choice: Option<Choice>): Option<Option<Choice>> {
    var c := if peer != [] && !enc.NoEncryption? then choice else None;
    if c.None? && enc.Require? then None else Some(c)
  }

  function Outcome(audio: Option<Audio>, crypto: Option<Option<Choice>>): Result {
    if audio.None? then Failed(NoCommonMedia)
    else if crypto.None? then Failed(NoCommonCrypto)
    else
      match crypto.value
      case None => Agreed(audio.value, None, None)
      case Some(c) => Agreed(audio.value, Some(c.conf), Some(c.prof))
  }

  /** The answerer's result for the offered lists, its own profiles and its encryption mode. */
  ghost predicate Answered(audio: seq<CodecInfo>, data: seq<CodecInfo>, offered: seq<Profile>,
                           local: seq<Profile>, enc: Encryption, r: Result)
  {
    exists a :: Selected(audio, data, false, a) && r == Outcome(a, Crypto(offered, enc, Chosen(offered, local, true)))
  }

  method Answer(audio: seq<CodecInfo>, data: seq<CodecInfo>, offered: seq<Profile>, local: seq<Profile>, enc: Encryption)
    returns (r: Result)
    ensures Answered(audio, data, offered, local, enc, r)
  {
    var a := SelectAudio(audio, data, false);
    if a.None? { return Failed(NoCommonMedia); }
    var c: Option<Choice> := None;
    if |offered| != 0 && enc != NoEncryption {
      c := SelectCrypto(offered, local, true);
    }
    if c.None? && enc == Require { return Failed(NoCommonCrypto); }
    r := match c case None => Agreed(a.value, None, None) case Some(x) => Agreed(a.value, Some(x.conf), Some(x.prof));
  }

  /** The offerer's result for the answer it received. */
  ghost predicate Applied(audio: seq<CodecInfo>, data: seq<CodecInfo>, answered: seq<Profile>,
                          local: seq<Profile>, enc: Encryption, r: Result)
  {
    exists a :: Selected(audio, data, true, a) && r == Outcome(a, Crypto(answered, enc, Chosen(local, answered, false)))
  }

  method Apply(audio: seq<CodecInfo>, data: seq<CodecInfo>, answered: seq<Profile>, local: seq<Profile>, enc: Encryption)
    returns (r: Result)
    ensures Applied(audio, data, answered, local, enc, r)
  {
    var a := SelectAudio(audio, data, true);
    if a.None? { return Failed(NoCommonMedia); }
    var c: Option<Choice> := None;
    if |answered| != 0 && enc != NoEncryption {
      c := SelectCrypto(local, answered, false);
    }
    if c.None? && enc == Require { return Failed(NoCommonCrypto); }
    r := match c case None => Agreed(a.value, None, None) case Some(x) => Agreed(a.value, Some(x.conf), Some(x.prof));
  }

  predicate Simple(ps: seq<Profile>) {
    forall i :: 0 <= i < |ps| ==> Usable(ps[i]) && ps[i].mki == []
  }

  /** The profiles of an offer: none when its encryption is off. */
  function Offered(own: seq<Profile>, enc: Encryption): seq<Profile> {
    if enc.NoEncryption? then [] else own
  }

  /** Names arrive as sent, so the positions that are looked up do not change. */
  lemma {:induction false} SameIndex(ps: seq<Profile>, name: string)
    ensures IndexOf(SeenAll(ps), name) == IndexOf(ps, name)
  {
    hide ParseCipher;
    if |ps| > 0 && ps[0].name != name {
      assert SeenAll(ps)[1..] == SeenAll(ps[1..]);
      SameIndex(ps[1..], name);
    }
  }

  lemma {:induction false} SameMatch(offer: seq<Profile>, answer: seq<Profile>)
    ensures Match(SeenAll(offer), answer) == Match(offer, answer)
  {
    hide ParseCipher, IndexOf;
    if |answer| > 0 {
      SameIndex(offer, answer[0].name);
      SameMatch(offer, answer[1..]);
    }
  }

  /** Names of the supported ciphers, as RFC 4568 section 6.2 and RFC 6188 write them. */
  const NAMES: set<string> :=
    {"AES_CM_128_HMAC_SHA1_80", "AES_CM_128_HMAC_SHA1_32", "AES_256_CM_HMAC_SHA1_80", "AES_256_CM_HMAC_SHA1_32"}

  /** The name that stands for a cipher. */
  function NameOf(c: Cipher): string {
    match c
    case Aes128Sha80 => "AES_CM_128_HMAC_SHA1_80"
    case Aes128Sha32 => "AES_CM_128_HMAC_SHA1_32"
    case Aes256Sha80 => "AES_256_CM_HMAC_SHA1_80"
    case Aes256Sha32 => "AES_256_CM_HMAC_SHA1_32"
  }

  lemma CipherNames(name: string)
    ensures ParseCipher(name).Some? <==> name in NAMES
    ensures ParseCipher(name).Some? ==> NameOf(ParseCipher(name).value) == name
  {
  }

  /** Profile i of the offer is the first of its name, and profile j the answerer's first of an offered name. */
  ghost predicate FirstShared(own: seq<Profile>, local: seq<Profile>, i: int, j: int) {
    && 0 <= i < |own| && 0 <= j < |local| && own[i].name == local[j].name && local[j].name in NAMES
    && (forall k :: 0 <= k < i ==> own[k].name != local[j].name)
    && (forall k :: 0 <= k < j ==> !Shares(own, local[k].name))
  }

  /** The name is supported, and some profile has it. */
  ghost predicate Shares(own: seq<Profile>, name: string) {
    name in NAMES && exists m :: 0 <= m < |own| && own[m].name == name
  }

  lemma CommonIsShared(own: seq<Profile>, p: Profile)
    ensures Common(own, p) <==> Shares(own, p.name)
  {
    CipherNames(p.name);
    hide ParseCipher;
  }

  /** The keys of the end that has the profile mine, its peer having the profile theirs. */
  predicate Uses(c: Config, mine: Profile, theirs: Profile) {
    && c.keys.localKey == mine.key && c.keys.localSalt == mine.salt
    && c.keys.remoteKey == theirs.key && c.keys.remoteSalt == theirs.salt
  }

  /**
    The choice of either end, for any profiles: the answerer's first supported profile of an offered name and
    the first offered one of that name. The end swaps when it is the answerer: its own keys, salt and MKI
    are the local ones, and its profile goes back with the tag that was offered.
   */
  lemma ChosenIs(offer: seq<Profile>, answer: seq<Profile>, swap: bool, r: Option<Choice>)
    requires r == Chosen(offer, answer, swap)
    ensures r.Some? <==> exists j :: 0 <= j < |answer| && Shares(offer, answer[j].name)
    ensures r.Some? ==> exists i, j :: FirstShared(offer, answer, i, j) && Picks(offer[i], answer[j], swap, r.value)
  {
    hide ParseCipher, IndexOf, Match;
    forall k | 0 <= k < |answer| ensures Common(offer, answer[k]) <==> Shares(offer, answer[k].name) {
      CommonIsShared(offer, answer[k]);
    }
    var j := Match(offer, answer);
    if j < |answer| {
      CipherNames(answer[j].name);
      var i := IndexOf(offer, answer[j].name);
      assert FirstShared(offer, answer, i, j) && Picks(offer[i], answer[j], swap, r.value);
    }
  }

  predicate Picks(off: Profile, ans: Profile, swap: bool, c: Choice) {
    var mine, theirs := if swap then ans else off, if swap then off else ans;
    && Uses(c.conf, mine, theirs)
    && c.conf.localMki == mine.mki && c.conf.remoteMki == theirs.mki
    && NameOf(c.conf.cipher) == off.name == ans.name
    && c.prof == mine.(index := off.index)
  }

  /**
    What the answerer picks from the offer as it arrived, and what the offerer makes of the reply: each
    end's local key is its own, its remote key the other's, of the first profiles they share.
   */
  lemma KeysMirror(own: seq<Profile>, local: seq<Profile>)
    requires Simple(own) && Simple(local)
    ensures Chosen(SeenAll(own), local, true).Some? <==> exists j :: 0 <= j < |local| && Shares(own, local[j].name)
    ensures match Chosen(SeenAll(own), local, true)
            case None => true
            case Some(x) =>
              && Proper(x.prof)
              && match Chosen(own, SeenAll([x.prof]), false)
                 case None => false
                 case Some(y) => exists i, j :: FirstShared(own, local, i, j) && Agree(own[i], local[j], x, y)
  {
    hide ParseCipher, IndexOf, Match;
    forall k | 0 <= k < |local| ensures Common(own, local[k]) <==> Shares(own, local[k].name) {
      CommonIsShared(own, local[k]);
    }
    SameMatch(own, local);
    var j := Match(own, local);
    if j < |local| {
      SameIndex(own, local[j].name);
      CipherNames(local[j].name);
      var i := IndexOf(own, local[j].name);
      var x := Pair(Seen(own[i]), local[j], true);
      assert Chosen(SeenAll(own), local, true) == Some(x);
      var back := SeenAll([x.prof]);
      assert back == [Seen(x.prof)];
      MatchIs(own, back, 0);
      assert FirstShared(own, local, i, j);
    }
  }

  /** The choices of the answerer, with profile ans, and of the offerer, with profile off. */
  ghost predicate Agree(off: Profile, ans: Profile, x: Choice, y: Choice) {
    && Uses(x.conf, ans, off) && Uses(y.conf, off, ans)
    && NameOf(x.conf.cipher) == NameOf(y.conf.cipher) == off.name == ans.name
    && x.prof == ans.(index := off.index) && y.prof == off
    && x.conf.localMki == x.conf.remoteMki == y.conf.localMki == y.conf.remoteMki == []
  }

  /** Both ends want keys and the answerer has a supported profile that was offered. */
  ghost predicate Keyed(own: seq<Profile>, local: seq<Profile>, encA: Encryption, encB: Encryption) {
    !encA.NoEncryption? && !encB.NoEncryption? && exists j :: 0 <= j < |local| && Shares(own, local[j].name)
  }

  /** The profile that the answer carries. */
  function Sent(x: Result): seq<Profile>
    requires x.Agreed?
  {
    if x.prof.Some? then [x.prof.value] else []
  }

  /**
    One exchange: the offered profiles arrive as seen, the answer is x, its profile comes back as back,
    and the offerer makes y of it. Both lists of profiles travel as text.
   */
  ghost predicate Exchange(audio: seq<CodecInfo>, data: seq<CodecInfo>, own: seq<Profile>, local: seq<Profile>,
                           encA: Encryption, encB: Encryption, b: Codec, seen: seq<Profile>, x: Result,
                           back: seq<Profile>, y: Result)
  {
    && ParseAll(PrintAll(Offered(own, encA), b), b) == Some(seen)
    && Answered(audio, data, seen, local, encB, x)
    && (x.Agreed? ==>
          && ParseAll(PrintAll(Sent(x), b), b) == Some(back)
          && Applied([x.audio.codec], AnswerData(x.audio), back, Offered(own, encA), encA, y))
  }

  /**
    Two ends that exchange an offer and its answer as text. The answerer uses keys exactly when both
    want encryption and it has a supported profile that was offered; it refuses exactly when it must
    have keys and has none. When it answers, the offerer gets the same codec and DTMF payload. With
    keys both use the cipher of the first names they share, each with its own profile's key and salt as
    the local ones, and the answer carries the tag of the offered profile; without keys the offerer has
    none either, or refuses if it must have them.
   */
  lemma BothEndsAgree(audio: seq<CodecInfo>, data: seq<CodecInfo>, own: seq<Profile>, local: seq<Profile>,
                      encA: Encryption, encB: Encryption, b: Codec, seen: seq<Profile>, x: Result,
                      back: seq<Profile>, y: Result)
    requires Sound(b) && Simple(own) && Simple(local)
    requires Exchange(audio, data, own, local, encA, encB, b, seen, x, back, y)
    ensures x == Failed(NoCommonMedia) <==> audio == []
    ensures x == Failed(NoCommonCrypto) <==> audio != [] && encB.Require? && !Keyed(own, local, encA, encB)
    ensures x.Agreed? ==>
      && (x.conf.Some? <==> Keyed(own, local, encA, encB))
      && (y.Failed? <==> encA.Require? && x.conf.None?)
      && (y.Agreed? ==> y.audio == x.audio && (y.conf.Some? <==> x.conf.Some?))
    ensures x.Agreed? && x.conf.Some? ==>
      && x.prof.Some? && y.prof.Some?
      && exists i, j :: FirstShared(own, local, i, j)
                        && Agree(own[i], local[j], Choice(x.conf.value, x.prof.value), Choice(y.conf.value, y.prof.value))
  {
    hide Sound, PrintAll, ParseAll, Selected, Shares, Chosen, ParseCipher, SeenAll, FirstShared, Agree;
    var offer := Offered(own, encA);
    PrintParseAll(offer, b);
    assert seen == SeenAll(offer) && (seen == [] <==> offer == []) by { SeenLength(offer); }
    KeysMirror(own, local);
    var a :| Selected(audio, data, false, a) && x == Outcome(a, Crypto(seen, encB, Chosen(seen, local, true)));
    NoneSelected(audio, data, false, a);
    NoneShared(local);
    if x.Agreed? {
      assert x.audio == a.value;
      var c :| Selected([x.audio.codec], AnswerData(x.audio), true, c)
            && y == Outcome(c, Crypto(back, encA, Chosen(offer, back, false)));
      AnswerReselects(audio, data, x.audio, c);
      PrintParseAll(Sent(x), b);
      SeenLength(Sent(x));
    }
  }

  lemma SeenLength(ps: seq<Profile>)
    ensures |SeenAll(ps)| == |ps|
  {
  }

  lemma NoneSelected(audio: seq<CodecInfo>, data: seq<CodecInfo>, answer: bool, r: Option<Audio>)
    requires Selected(audio, data, answer, r)
    ensures r.None? <==> audio == []
  {
  }

  lemma NoneShared(local: seq<Profile>)
    ensures forall j :: 0 <= j < |local| ==> !Shares([], local[j].name)
  {
  }
}
