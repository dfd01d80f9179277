/** The trusted peers in memory and in their file
    (crates/transport/src/peer_store.rs). The file's text is abstracted to the
    list of records it holds. */
module Peers {
  import opened Core

  datatype KnownPeer = KnownPeer(name: string, pubkey: string, pairedAt: nat)

  // ----- hexadecimal text -----

  type Nibble = n: int | 0 <= n < 16

  function NibbleChar(n: Nibble): char {
    "0123456789abcdef"[n]
  }

  function CharNibble(c: char): Option<Nibble> {
    if '0' <= c <= '9' then Some(c as int - '0' as int)
    else if 'a' <= c <= 'f' then Some(c as int - 'a' as int + 10)
    else if 'A' <= c <= 'F' then Some(c as int - 'A' as int + 10)
    else None
  }

  function HexEncode(bytes: Bytes): string {
    if bytes == [] then "" else [NibbleChar(bytes[0] / 16), NibbleChar(bytes[0] % 16)] + HexEncode(bytes[1..])
  }

  /** Nothing if the length is odd or a character is no digit. */
  function HexDecode(text: string): Option<Bytes> {
    if text == "" then Some([])
    else if |text| == 1 then None
    else
      match (CharNibble(text[0]), CharNibble(text[1]), HexDecode(text[2..]))
      case (Some(hi), Some(lo), Some(rest)) => Some([16 * (hi as int) + lo] + rest)
      case _ => None
  }

  lemma NibbleRoundTrip(n: Nibble)
    ensures CharNibble(NibbleChar(n)) == Some(n)
  {
  }

  /** Two digits decode to the byte they were taken from. */
  lemma DigitsDecode(b: byte, text: string, rest: Bytes)
    requires HexDecode(text) == Some(rest)
    ensures HexDecode([NibbleChar(b / 16), NibbleChar(b % 16)] + text) == Some([b] + rest)
  {
    var hi, lo := b / 16, b % 16;
    NibbleRoundTrip(hi);
    NibbleRoundTrip(lo);
    assert 16 * hi + lo == b;
    assert ([NibbleChar(hi), NibbleChar(lo)] + text)[2..] == text;
  }

  /** `c` is a digit for `n`; letters may have either case. */
  predicate IsDigit(c: char, n: Nibble) {
    "0123456789abcdef"[n] == c || "0123456789ABCDEF"[n] == c
  }

  lemma DigitIs(c: char, n: Nibble)
    ensures CharNibble(c) == Some(n) <==> IsDigit(c, n)
  {
  }

  /** Each byte becomes two lower-case digits, the high one first. */
  lemma {:induction false} HexEncodeAt(bytes: Bytes)
    ensures |HexEncode(bytes)| == 2 * |bytes|
    ensures forall i :: 0 <= i < |bytes| ==>
      && HexEncode(bytes)[2 * i] == "0123456789abcdef"[bytes[i] / 16]
      && HexEncode(bytes)[2 * i + 1] == "0123456789abcdef"[bytes[i] % 16]
  {
    if bytes != [] {
      HexEncodeAt(bytes[1..]);
    }
  }

  /** `text` spells `bytes`, two digits a byte, the high one first. */
  ghost predicate Spells(text: string, bytes: Bytes) {
    && |text| == 2 * |bytes|
    && forall i :: 0 <= i < |bytes| ==> IsDigit(text[2 * i], bytes[i] / 16) && IsDigit(text[2 * i + 1], bytes[i] % 16)
  }

  lemma SpellsTail(text: string, bytes: Bytes)
    requires Spells(text, bytes) && bytes != []
    ensures IsDigit(text[0], bytes[0] / 16) && IsDigit(text[1], bytes[0] % 16) && Spells(text[2..], bytes[1..])
  {
    assert IsDigit(text[2 * 0], bytes[0] / 16) && IsDigit(text[2 * 0 + 1], bytes[0] % 16);
    forall i | 0 <= i < |bytes[1..]|
      ensures IsDigit(text[2..][2 * i], bytes[1..][i] / 16) && IsDigit(text[2..][2 * i + 1], bytes[1..][i] % 16)
    {
      assert text[2..][2 * i] == text[2 * (i + 1)] && text[2..][2 * i + 1] == text[2 * (i + 1) + 1];
      assert bytes[1..][i] == bytes[i + 1];
    }
  }

  lemma SpellsMore(text: string, bytes: Bytes)
    requires 2 <= |text| && bytes != []
    requires IsDigit(text[0], bytes[0] / 16) && IsDigit(text[1], bytes[0] % 16) && Spells(text[2..], bytes[1..])
    ensures Spells(text, bytes)
  {
    forall i | 0 <= i < |bytes|
      ensures IsDigit(text[2 * i], bytes[i] / 16) && IsDigit(text[2 * i + 1], bytes[i] % 16)
    {
      if 0 < i {
        assert text[2..][2 * (i - 1)] == text[2 * i] && text[2..][2 * (i - 1) + 1] == text[2 * i + 1];
        assert bytes[1..][i - 1] == bytes[i];
      }
    }
  }

  lemma JoinNibbles(hi: Nibble, lo: Nibble, b: byte)
    ensures 16 * (hi as int) + lo == b as int <==> hi == b / 16 && lo == b % 16
  {
  }

  lemma FirstAndRest(b: byte, rest: Bytes, bytes: Bytes)
    ensures [b] + rest == bytes <==> bytes != [] && b == bytes[0] && rest == bytes[1..]
  {
    if bytes != [] {
      assert [bytes[0]] + bytes[1..] == bytes;
    }
  }

  lemma DecodesMore(text: string, bytes: Bytes)
    requires 2 <= |text|
    ensures HexDecode(text) == Some(bytes) <==>
      && bytes != [] && CharNibble(text[0]) == Some(bytes[0] / 16) && CharNibble(text[1]) == Some(bytes[0] % 16)
      && HexDecode(text[2..]) == Some(bytes[1..])
  {
    match (CharNibble(text[0]), CharNibble(text[1]), HexDecode(text[2..]))
    case (Some(hi), Some(lo), Some(rest)) =>
      FirstAndRest(16 * (hi as int) + lo, rest, bytes);
      if bytes != [] {
        JoinNibbles(hi, lo, bytes[0]);
      }
    case _ =>
  }

  /** Decoding accepts exactly the spellings. */
  lemma {:induction false} HexDecodeIs(text: string, bytes: Bytes)
    ensures HexDecode(text) == Some(bytes) <==> Spells(text, bytes)
    decreases |text|
  {
    if 2 <= |text| {
      DecodesMore(text, bytes);
      if bytes != [] {
        DigitIs(text[0], bytes[0] / 16);
        DigitIs(text[1], bytes[0] % 16);
        HexDecodeIs(text[2..], bytes[1..]);
        if Spells(text, bytes) {
          SpellsTail(text, bytes);
        }
        if HexDecode(text) == Some(bytes) {
          SpellsMore(text, bytes);
        }
      }
    }
  }

  lemma {:induction false} HexRoundTrip(bytes: Bytes)
    ensures HexDecode(HexEncode(bytes)) == Some(bytes)
  {
    if bytes != [] {
      HexRoundTrip(bytes[1..]);
      DigitsDecode(bytes[0], HexEncode(bytes[1..]), bytes[1..]);
      assert [bytes[0]] + bytes[1..] == bytes;
    }
  }

  // ----- the file -----

  /** The key a record is filed under, if its text is 32 bytes of hex. */
  function KeyOf(p: KnownPeer): Option<Bytes> {
    match HexDecode(p.pubkey)
    case Some(bytes) => if |bytes| == 32 then Some(bytes) else None
    case None => None
  }

  /** Bad records are skipped. */
  function Keyed(peers: seq<KnownPeer>): seq<(Bytes, KnownPeer)> {
    if peers == [] then []
    else
      var front, p := Keyed(peers[..|peers| - 1]), peers[|peers| - 1];
      match KeyOf(p)
      case Some(key) => front + [(key, p)]
      case None => front
  }

  /** Later pairs win. */
  function Gather(pairs: seq<(Bytes, KnownPeer)>): map<Bytes, KnownPeer> {
    if pairs == [] then map[]
    else
      var (key, p) := pairs[|pairs| - 1];
      Gather(pairs[..|pairs| - 1])[key := p]
  }

  function Collect(peers: seq<KnownPeer>): map<Bytes, KnownPeer> {
    Gather(Keyed(peers))
  }

  lemma CollectSnoc(peers: seq<KnownPeer>, p: KnownPeer)
    ensures Collect(peers + [p]) == if KeyOf(p).Some? then Collect(peers)[KeyOf(p).value := p] else Collect(peers)
  {
    assert (peers + [p])[..|peers|] == peers;
    if KeyOf(p).Some? {
      assert (Keyed(peers) + [(KeyOf(p).value, p)])[..|Keyed(peers)|] == Keyed(peers);
    }
  }

  /** The record's text spells the 32-byte key. */
  ghost predicate FiledUnder(p: KnownPeer, key: Bytes) {
    |key| == 32 && Spells(p.pubkey, key)
  }

  lemma KeyIs(p: KnownPeer, key: Bytes)
    ensures KeyOf(p) == Some(key) <==> FiledUnder(p, key)
  {
    HexDecodeIs(p.pubkey, key);
  }

  /** The last record for a key. */
  ghost predicate IsLastFor(peers: seq<KnownPeer>, key: Bytes, i: int) {
    && 0 <= i < |peers| && FiledUnder(peers[i], key)
    && forall j :: i < j < |peers| ==> !FiledUnder(peers[j], key)
  }

  /** Reading the records gives, for every key that some record spells, the last
      such record, and nothing else. */
  lemma {:induction false} CollectTakesLast(peers: seq<KnownPeer>, key: Bytes)
    ensures key in Collect(peers) <==> exists i :: IsLastFor(peers, key, i)
    ensures forall i :: IsLastFor(peers, key, i) ==> key in Collect(peers) && Collect(peers)[key] == peers[i]
  {
    if peers != [] {
      var n := |peers| - 1;
      var front := peers[..n];
      assert peers == front + [peers[n]];
      CollectTakesLast(front, key);
      CollectSnoc(front, peers[n]);
      KeyIs(peers[n], key);
      if FiledUnder(peers[n], key) {
        assert IsLastFor(peers, key, n);
      } else {
        forall i
          ensures IsLastFor(peers, key, i) <==> IsLastFor(front, key, i)
        {
          assert 0 <= i < n ==> forall j :: i < j < |peers| ==> j == n || peers[j] == front[j];
        }
      }
    }
  }

  /** A file that is there: its records, text that is no store, or nothing that
      can be read as text. */
  datatype FileText = Records(peers: seq<KnownPeer>) | Unparsable | Unreadable

  datatype OpenError = TomlError | IoError

  /** What opening makes of a file that may be missing. */
  function Reading(text: Option<FileText>): Result<map<Bytes, KnownPeer>, OpenError> {
    match text
    case None => Ok(map[])
    case Some(Records(peers)) => Ok(Collect(peers))
    case Some(Unparsable) => Err(TomlError)
    case Some(Unreadable) => Err(IoError)
  }

  /** Every entry's text decodes to the key it is filed under. */
  ghost predicate Consistent(m: map<Bytes, KnownPeer>) {
    forall k :: k in m ==> KeyOf(m[k]) == Some(k)
  }

  lemma {:induction false} CollectIsConsistent(peers: seq<KnownPeer>)
    ensures Consistent(Collect(peers))
  {
    if peers != [] {
      var front := peers[..|peers| - 1];
      CollectIsConsistent(front);
      CollectSnoc(front, peers[|peers| - 1]);
      assert front + [peers[|peers| - 1]] == peers;
    }
  }

  /** `peers` are the values of `m`, in the order of `keys`. */
  ghost predicate Lists(m: map<Bytes, KnownPeer>, keys: seq<Bytes>, peers: seq<KnownPeer>) {
    && |keys| == |peers|
    && (forall k :: k in m <==> k in keys)
    && (forall i :: 0 <= i < |keys| ==> keys[i] in m && peers[i] == m[keys[i]])
    && (forall i, j :: 0 <= i < j < |keys| ==> keys[i] != keys[j])
  }

  function Pairs(keys: seq<Bytes>, peers: seq<KnownPeer>): seq<(Bytes, KnownPeer)>
    requires |keys| == |peers|
  {
    seq(|keys|, i requires 0 <= i < |keys| => (keys[i], peers[i]))
  }

  /** Gathering pairs with distinct keys keeps every one of them. */
  lemma {:induction false} GatherDistinct(keys: seq<Bytes>, peers: seq<KnownPeer>)
    requires |keys| == |peers|
    requires forall i, j :: 0 <= i < j < |keys| ==> keys[i] != keys[j]
    ensures forall k :: k in Gather(Pairs(keys, peers)) <==> k in keys
    ensures forall i :: 0 <= i < |keys| ==> Gather(Pairs(keys, peers))[keys[i]] == peers[i]
  {
    if keys != [] {
      var n := |keys| - 1;
      GatherDistinct(keys[..n], peers[..n]);
      assert Pairs(keys, peers)[..n] == Pairs(keys[..n], peers[..n]);
      assert keys == keys[..n] + [keys[n]];
    }
  }

  lemma {:induction false} KeyedPairs(keys: seq<Bytes>, peers: seq<KnownPeer>)
    requires |keys| == |peers| && forall i :: 0 <= i < |keys| ==> KeyOf(peers[i]) == Some(keys[i])
    ensures Keyed(peers) == Pairs(keys, peers)
  {
    if keys != [] {
      var n := |keys| - 1;
      KeyedPairs(keys[..n], peers[..n]);
      assert Pairs(keys, peers) == Pairs(keys[..n], peers[..n]) + [(keys[n], peers[n])];
    }
  }

  /** Listing one more value. */
  lemma ListsMore(m: map<Bytes, KnownPeer>, todo: set<Bytes>, keys: seq<Bytes>, peers: seq<KnownPeer>, k: Bytes)
    requires todo <= m.Keys && k in todo && Lists(m - todo, keys, peers)
    ensures Lists(m - (todo - {k}), keys + [k], peers + [m[k]])
  {
    var after := m - (todo - {k});
    assert k !in keys;
    assert forall x :: x in after <==> x in m - todo || x == k;
  }

  /** Writing the values in any order and reading them back gives the map. */
  lemma CollectUndoesListing(m: map<Bytes, KnownPeer>, keys: seq<Bytes>, peers: seq<KnownPeer>)
    requires Consistent(m) && Lists(m, keys, peers)
    ensures Collect(peers) == m
  {
    KeyedPairs(keys, peers);
    GatherDistinct(keys, peers);
  }

  class Disk {
    /** Nothing while the file does not exist. */
    var text: Option<FileText>

    constructor (text: Option<FileText>)
      ensures this.text == text
    {
      this.text := text;
    }
  }

  /** How a flush goes: it works, it fails before the file is touched, or the
      write fails and may leave any text behind. */
  datatype Weather = Fine | NothingWritten | WriteFails(left: Option<FileText>)

  class PeerStore {
    const disk: Disk
    var byPubkey: map<Bytes, KnownPeer>

    ghost predicate Valid()
      reads this
    {
      Consistent(byPubkey)
    }

    constructor (disk: Disk, byPubkey: map<Bytes, KnownPeer>)
      ensures this.disk == disk && this.byPubkey == byPubkey
    {
      this.disk := disk;
      this.byPubkey := byPubkey;
    }

    /** A missing file opens as an empty store and is not created. */
    static method Open(disk: Disk) returns (r: Result<PeerStore, OpenError>)
      ensures match Reading(disk.text)
              case Ok(entries) =>
                r.Ok? && fresh(r.value) && r.value.Valid() && r.value.disk == disk && r.value.byPubkey == entries
              case Err(e) => r == Err(e)
      ensures match disk.text
              case None => r.Ok? && r.value.byPubkey == map[]
              case Some(Records(peers)) => r.Ok? && r.value.byPubkey == Collect(peers)
              case Some(Unparsable) => r == Err(TomlError)
              case Some(Unreadable) => r == Err(IoError)
    {
      match disk.text
      case None =>
        var store := new PeerStore(disk, map[]);
        r := Ok(store);
      case Some(Records(peers)) =>
        var entries: map<Bytes, KnownPeer> := map[];
        var i := 0;
        while i < |peers|
          invariant i <= |peers| && entries == Collect(peers[..i])
        {
          var key := KeyOf(peers[i]);
          CollectSnoc(peers[..i], peers[i]);
          assert peers[..i + 1] == peers[..i] + [peers[i]];
          if key.Some? {
            entries := entries[key.value := peers[i]];
          }
          i := i + 1;
        }
        assert peers[..i] == peers;
        CollectIsConsistent(peers);
        var store := new PeerStore(disk, entries);
        r := Ok(store);
      case Some(Unparsable) =>
        r := Err(TomlError);
      case Some(Unreadable) =>
        r := Err(IoError);
    }

    /** Writes the values in whatever order the map yields them. */
    method Flush(weather: Weather) returns (ok: bool)
      requires Valid()
      modifies disk
      ensures ok <==> weather.Fine?
      ensures ok ==> Reading(disk.text) == Ok(byPubkey)
      ensures weather.NothingWritten? ==> disk.text == old(disk.text)
    {
      if weather.NothingWritten? {
        return false;
      }
      var todo := byPubkey.Keys;
      var peers: seq<KnownPeer> := [];
      ghost var keys: seq<Bytes> := [];
      while todo != {}
        invariant todo <= byPubkey.Keys
        invariant Lists(byPubkey - todo, keys, peers)
        decreases |todo|
      {
        var k :| k in todo;
        ListsMore(byPubkey, todo, keys, peers, k);
        todo := todo - {k};
        keys := keys + [k];
        peers := peers + [byPubkey[k]];
      }
      assert byPubkey - todo == byPubkey;
      CollectUndoesListing(byPubkey, keys, peers);
      if weather.WriteFails? {
        disk.text := weather.left;
        return false;
      }
      disk.text := Some(Records(peers));
      ok := true;
    }

    /** The entry is remembered even when writing it down fails. */
    method Insert(pubkey: Bytes, name: string, pairedAt: nat, weather: Weather) returns (ok: bool)
      requires Valid() && |pubkey| == 32
      modifies this`byPubkey, disk
      ensures Valid()
      ensures byPubkey == old(byPubkey)[pubkey := KnownPeer(name, HexEncode(pubkey), pairedAt)]
      ensures ok <==> weather.Fine?
      ensures ok ==> Reading(disk.text) == Ok(byPubkey)
    {
      HexRoundTrip(pubkey);
      byPubkey := byPubkey[pubkey := KnownPeer(name, HexEncode(pubkey), pairedAt)];
      ok := Flush(weather);
    }

    method Remove(pubkey: Bytes, weather: Weather) returns (ok: bool)
      requires Valid()
      modifies this`byPubkey, disk
      ensures Valid()
      ensures byPubkey == old(byPubkey) - {pubkey}
      ensures ok <==> weather.Fine?
      ensures ok ==> Reading(disk.text) == Ok(byPubkey)
    {
      byPubkey := byPubkey - {pubkey};
      ok := Flush(weather);
    }
  }

  /** Opening, flushing and opening again changes nothing. */
  method OpenFlushOpen(disk: Disk) returns (first: Result<PeerStore, OpenError>, second: Result<PeerStore, OpenError>)
    modifies disk
    ensures first.Ok? <==> Reading(old(disk.text)).Ok?
    ensures first.Ok? ==> second.Ok? && second.value.byPubkey == first.value.byPubkey
    ensures first.Ok? ==> Reading(old(disk.text)) == Ok(first.value.byPubkey)
  {
    first := PeerStore.Open(disk);
    second := first;
    if first.Ok? {
      var _ := first.value.Flush(Fine);
      second := PeerStore.Open(disk);
    }
  }
}
