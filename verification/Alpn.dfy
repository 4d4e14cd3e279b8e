/**
 * The ALPN list check of the configuration, against the wire format it protects: the
 * ProtocolNameList of section 3.1 of RFC 7301, a 2-byte length followed by names of 1..255 bytes, each
 * behind a 1-byte length.
 */
module Alpn {
  import opened Common

  type Name = seq<byte>
  type Names = seq<Name>

  const MAX_PROTOCOL_LEN: nat := 255
  const MAX_LIST_LEN: nat := 0xFFFF

  /** What the check reports: which entry is at fault, and how. */
  datatype Verdict =
    | Accepted
    | EmptyList
    | EmptyName(index: nat)
    | NameTooLong(index: nat)
    | Duplicate(index: nat)
    | ListTooLong(length: nat)

  /** The encoded length of the names, without the list's own length field. */
  function EncodedLength(names: Names): nat {
    if names == [] then 0 else EncodedLength(names[..|names| - 1]) + 1 + |names[|names| - 1]|
  }

  ghost predicate Distinct(names: Names) {
    forall i, j :: 0 <= i < j < |names| ==> names[i] != names[j]
  }

  ghost predicate NamesFit(names: Names) {
    forall i :: 0 <= i < |names| ==> 1 <= |names[i]| <= MAX_PROTOCOL_LEN
  }

  /** Everything before the entry `index` passes, so that entry is the first at fault. */
  ghost predicate FirstAtFault(names: Names, index: nat) {
    index < |names| && NamesFit(names[..index]) && Distinct(names[..index])
  }

  /** The names, one after the other, each behind its length byte. */
  function EncodeNames(names: Names): (wire: seq<byte>)
    requires NamesFit(names)
    ensures |wire| == EncodedLength(names)
  {
    if names == [] then []
    else
      EncodedLengthFromFront(names);
      [|names[0]|] + names[0] + EncodeNames(names[1..])
  }

  /** The whole list; only one that fits its 2-byte length can be encoded. */
  function EncodeList(names: Names): seq<byte>
    requires NamesFit(names) && EncodedLength(names) <= MAX_LIST_LEN
  {
    var body := EncodeNames(names);
    [|body| / 0x100, |body| % 0x100] + body
  }

  /** Takes one length-prefixed name off the front. */
  function TakeName(wire: seq<byte>): (r: Option<(Name, seq<byte>)>)
    ensures r.Some? ==> 1 <= |r.value.0| <= MAX_PROTOCOL_LEN && wire == [|r.value.0|] + r.value.0 + r.value.1
  {
    if wire == [] then None
    else
      var n: nat := wire[0];
      if n == 0 || |wire| < 1 + n then None else Some((wire[1..1 + n], wire[1 + n..]))
  }

  function DecodeNames(wire: seq<byte>): Option<Names> {
    if wire == [] then Some([])
    else
      match TakeName(wire)
      case None => None
      case Some(taken) =>
        match DecodeNames(taken.1)
        case None => None
        case Some(rest) => Some([taken.0] + rest)
  }

  function BigEndian(high: nat, low: nat): nat {
    high * 0x100 + low
  }

  /** The receiver's side: the length field must match, and the list hold at least one name. */
  function DecodeList(wire: seq<byte>): Option<Names> {
    if |wire| < 4 || BigEndian(wire[0], wire[1]) != |wire| - 2 then None else DecodeNames(wire[2..])
  }

  lemma {:induction false} EncodedLengthFromFront(names: Names)
    requires names != []
    ensures EncodedLength(names) == 1 + |names[0]| + EncodedLength(names[1..])
  {
    if |names| > 1 {
      EncodedLengthFromFront(names[..|names| - 1]);
      assert names[..|names| - 1][1..] == names[1..][..|names| - 2];
    }
  }

  lemma {:induction false} NamesRoundTrip(names: Names)
    requires NamesFit(names)
    ensures DecodeNames(EncodeNames(names)) == Some(names)
  {
    if names != [] {
      NamesRoundTrip(names[1..]);
      TakesBack(names[0], EncodeNames(names[1..]));
      assert [names[0]] + names[1..] == names;
    }
  }

  lemma TakesBack(name: Name, rest: seq<byte>)
    requires 1 <= |name| <= MAX_PROTOCOL_LEN
    ensures TakeName([|name|] + name + rest) == Some((name, rest))
  {
    var wire := [|name|] + name + rest;
    assert wire[1..1 + |name|] == name && wire[1 + |name|..] == rest;
  }

  /** Whatever decodes is the encoding of what it decodes to. */
  lemma {:induction false} DecodedNamesEncodeBack(wire: seq<byte>)
    requires DecodeNames(wire).Some?
    ensures NamesFit(DecodeNames(wire).value) && EncodeNames(DecodeNames(wire).value) == wire
    decreases |wire|
  {
    if wire != [] {
      var taken := TakeName(wire).value;
      DecodedNamesEncodeBack(taken.1);
      OneMoreName(taken.0, DecodeNames(taken.1).value);
    }
  }

  lemma OneMoreName(first: Name, others: Names)
    requires 1 <= |first| <= MAX_PROTOCOL_LEN && NamesFit(others)
    ensures NamesFit([first] + others)
    ensures EncodeNames([first] + others) == [|first|] + first + EncodeNames(others)
  {
    var names := [first] + others;
    assert names[1..] == others && names[0] == first;
  }

  /** Encoding and decoding are inverse on every list the check accepts. */
  lemma ListRoundTrip(names: Names)
    requires names != [] && NamesFit(names) && EncodedLength(names) <= MAX_LIST_LEN
    ensures DecodeList(EncodeList(names)) == Some(names)
  {
    NamesRoundTrip(names);
    EncodedLengthFromFront(names);
    var body := EncodeNames(names);
    assert EncodeList(names)[2..] == body;
  }

  lemma DecodedListEncodesBack(wire: seq<byte>)
    requires DecodeList(wire).Some?
    ensures var names := DecodeList(wire).value;
            names != [] && NamesFit(names) && EncodedLength(names) <= MAX_LIST_LEN && EncodeList(names) == wire
  {
    DecodedNamesEncodeBack(wire[2..]);
    var names := DecodeList(wire).value;
    var body := wire[2..];
    assert |body| / 0x100 == wire[0] && |body| % 0x100 == wire[1];
    assert wire == [wire[0], wire[1]] + body;
  }

  /** The lists some peer could receive on the wire. */
  ghost predicate Encodable(names: Names) {
    exists wire :: DecodeList(wire) == Some(names)
  }

  /** The check's conditions on lengths are exactly encodability in the wire format. */
  lemma LengthsMeanEncodable(names: Names)
    ensures Encodable(names) <==> names != [] && NamesFit(names) && EncodedLength(names) <= MAX_LIST_LEN
  {
    if names != [] && NamesFit(names) && EncodedLength(names) <= MAX_LIST_LEN {
      ListRoundTrip(names);
    }
    if Encodable(names) {
      var wire :| DecodeList(wire) == Some(names);
      DecodedListEncodesBack(wire);
    }
  }

  lemma PrefixGrows(names: Names, i: nat)
    requires FirstAtFault(names, i) && 1 <= |names[i]| <= MAX_PROTOCOL_LEN && names[i] !in names[..i]
    ensures NamesFit(names[..i + 1]) && Distinct(names[..i + 1])
    ensures EncodedLength(names[..i + 1]) == EncodedLength(names[..i]) + 1 + |names[i]|
    ensures names[..i + 1] == names[..i] + [names[i]]
  {
    assert names[..i + 1][..i] == names[..i] && names[..i + 1] == names[..i] + [names[i]];
  }

  lemma FaultMeansUnfit(names: Names, i: nat)
    requires i < |names| && !(1 <= |names[i]| <= MAX_PROTOCOL_LEN)
    ensures !Encodable(names)
  {
    LengthsMeanEncodable(names);
  }

  /**
   * The loop of the check, with its early exits. A present list is accepted exactly when it is free of
   * duplicates and encodable; a rejection names the first entry at fault.
   */
  method ValidateAlpnProtocols(protocols: Option<Names>) returns (verdict: Verdict)
    ensures verdict.Accepted? <==> (protocols.Some? ==> Distinct(protocols.value) && Encodable(protocols.value))
    ensures verdict.EmptyList? <==> protocols == Some([])
    ensures verdict.EmptyName? ==> protocols.Some? && FirstAtFault(protocols.value, verdict.index) && protocols.value[verdict.index] == []
    ensures verdict.NameTooLong? ==>
              protocols.Some? && FirstAtFault(protocols.value, verdict.index) && |protocols.value[verdict.index]| > MAX_PROTOCOL_LEN
    ensures verdict.Duplicate? ==>
              protocols.Some? && FirstAtFault(protocols.value, verdict.index)
              && protocols.value[verdict.index] in protocols.value[..verdict.index]
    ensures verdict.ListTooLong? ==>
              protocols.Some? && NamesFit(protocols.value) && Distinct(protocols.value)
              && verdict.length == EncodedLength(protocols.value) > MAX_LIST_LEN
  {
    if protocols.None? {
      return Accepted;
    }
    var names := protocols.value;
    if names == [] {
      LengthsMeanEncodable(names);
      return EmptyList;
    }
    var seen: set<Name> := {};
    var totalLen := 0;
    for i := 0 to |names|
      invariant NamesFit(names[..i]) && Distinct(names[..i])
      invariant forall name :: name in seen <==> name in names[..i]
      invariant totalLen == EncodedLength(names[..i])
    {
      var name := names[i];
      assert FirstAtFault(names, i);
      if |name| == 0 {
        FaultMeansUnfit(names, i);
        return EmptyName(i);
      }
      if |name| > MAX_PROTOCOL_LEN {
        FaultMeansUnfit(names, i);
        return NameTooLong(i);
      }
      if name in seen {
        return Duplicate(i);
      }
      PrefixGrows(names, i);
      seen := seen + {name};
      totalLen := totalLen + 1 + |name|;
    }
    assert names[..|names|] == names;
    if totalLen > MAX_LIST_LEN {
      LengthsMeanEncodable(names);
      return ListTooLong(totalLen);
    }
    LengthsMeanEncodable(names);
    return Accepted;
  }
}
