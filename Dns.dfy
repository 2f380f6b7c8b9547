/**
 * The toy DNS codec of the tp7 library: the 12-byte header, questions and
 * answers, the length-prefixed name format and the message parser.
 *
 * A Rust `String` name is modelled by its UTF-8 bytes. No UTF-8 multi-byte
 * sequence contains the byte 0x2E, so splitting the bytes at 0x2E is splitting
 * the text at '.'.
 */
module Dns {
  import opened Wrappers
  import opened Bytes
  import Text

  /** A domain name: the bytes of its text. */
  type Nom = seq<uint8>

  /** The byte of '.'. */
  const Point: uint8 := 0x2E

  const DnsTypeA: uint16 := 1
  const DnsTypeAaaa: uint16 := 28
  const DnsTypeCname: uint16 := 5
  /** The Internet class, IN. */
  const ClasseIn: uint16 := 1

  datatype DnsHeader = DnsHeader(id: uint16, flags: uint16, qdcount: uint16, ancount: uint16, nscount: uint16, arcount: uint16)

  datatype DnsQuestion = DnsQuestion(qname: Nom, qtype: uint16, qclass: uint16)

  datatype DnsAnswer = DnsAnswer(name: Nom, rtype: uint16, rclass: uint16, ttl: uint32, rdlength: uint16, rdata: seq<uint8>)

  datatype DnsMessage = DnsMessage(header: DnsHeader, questions: seq<DnsQuestion>, answers: seq<DnsAnswer>)

  /** The `UnexpectedEof` errors of the parser, one per place it can run out of data. */
  datatype ErreurDns =
    | EnTeteInsuffisant        // fewer than 12 bytes
    | QuestionsInsuffisantes   // no byte left where a question starts
    | NomInsuffisant           // a name runs past the end of the data
    | TypeClasseInsuffisant    // no room for a question's type and class

  // ---------------------------------------------------------------- flags

  /** Rust's `|` on `u16`. */
  function Ou(a: uint16, b: uint16): uint16
  {
    ((a as bv16) | (b as bv16)) as int
  }

  /** Rust's `&` on `u16`. */
  function Et(a: uint16, b: uint16): uint16
  {
    ((a as bv16) & (b as bv16)) as int
  }

  const BitQr: uint16 := 0x8000
  const BitRd: uint16 := 0x0100

  /** The response code: the low four bits of the flags. */
  function Rcode(flags: uint16): (r: uint16)
    ensures r < 16
  {
    Et(flags, 0x000F)
  }

  // ---------------------------------------------------------------- header

  /** `DnsHeader::new`: RD always set, QR set for a response, every count zero. */
  function NouvelEnTete(id: uint16, isResponse: bool): (h: DnsHeader)
    ensures h.id == id
    ensures Et(h.flags, BitQr) != 0 <==> isResponse
    ensures Et(h.flags, BitRd) != 0
    ensures Rcode(h.flags) == 0
    ensures h.qdcount == 0 && h.ancount == 0 && h.nscount == 0 && h.arcount == 0
  {
    var flags := if isResponse then Ou(0, BitQr) else 0;
    DnsHeader(id, Ou(flags, BitRd), 0, 0, 0, 0)
  }

  /** `DnsHeader::to_bytes`: the six fields, big-endian. */
  function HeaderToBytes(h: DnsHeader): (r: seq<uint8>)
    ensures |r| == 12
  {
    U16ToBytes(h.id) + U16ToBytes(h.flags) + U16ToBytes(h.qdcount)
      + U16ToBytes(h.ancount) + U16ToBytes(h.nscount) + U16ToBytes(h.arcount)
  }

  /** `DnsHeader::from_bytes`: reading past the end of the data fails. */
  function HeaderFromBytes(data: seq<uint8>): (r: Result<DnsHeader, ErreurDns>)
    ensures r.Failure? <==> |data| < 12
  {
    if |data| < 12 then Failure(EnTeteInsuffisant)
    else Success(DnsHeader(U16FromBytes(data[0], data[1]), U16FromBytes(data[2], data[3]),
                           U16FromBytes(data[4], data[5]), U16FromBytes(data[6], data[7]),
                           U16FromBytes(data[8], data[9]), U16FromBytes(data[10], data[11])))
  }

  lemma HeaderRoundTrip(h: DnsHeader, suite: seq<uint8>)
    ensures HeaderFromBytes(HeaderToBytes(h) + suite) == Success(h)
  {
    var b := HeaderToBytes(h) + suite;
    U16RoundTrip(h.id);
    U16RoundTrip(h.flags);
    U16RoundTrip(h.qdcount);
    U16RoundTrip(h.ancount);
    U16RoundTrip(h.nscount);
    U16RoundTrip(h.arcount);
    assert b[0] == U16ToBytes(h.id)[0] && b[1] == U16ToBytes(h.id)[1];
    assert b[2] == U16ToBytes(h.flags)[0] && b[3] == U16ToBytes(h.flags)[1];
    assert b[4] == U16ToBytes(h.qdcount)[0] && b[5] == U16ToBytes(h.qdcount)[1];
    assert b[6] == U16ToBytes(h.ancount)[0] && b[7] == U16ToBytes(h.ancount)[1];
    assert b[8] == U16ToBytes(h.nscount)[0] && b[9] == U16ToBytes(h.nscount)[1];
    assert b[10] == U16ToBytes(h.arcount)[0] && b[11] == U16ToBytes(h.arcount)[1];
  }

  /** The header read from the first twelve bytes gives those bytes back. */
  lemma HeaderBytesRoundTrip(data: seq<uint8>)
    requires |data| >= 12
    ensures HeaderToBytes(HeaderFromBytes(data).value) == data[..12]
  {
    U16BytesRoundTrip(data[0], data[1]);
    U16BytesRoundTrip(data[2], data[3]);
    U16BytesRoundTrip(data[4], data[5]);
    U16BytesRoundTrip(data[6], data[7]);
    U16BytesRoundTrip(data[8], data[9]);
    U16BytesRoundTrip(data[10], data[11]);
  }

  // ---------------------------------------------------------------- names

  /** One label as written: its length as a byte (`as u8` wraps) and its bytes; an empty label is skipped. */
  function Piece(etiquette: Nom): Nom
  {
    if etiquette == [] then [] else [|etiquette| % 256] + etiquette
  }

  function EncodePieces(labels: seq<Nom>): Nom
  {
    if labels == [] then [] else Piece(labels[0]) + EncodePieces(labels[1..])
  }

  /** What `encode_domain_name` writes: the labels between dots, then the 0 terminator. */
  function NomEncode(domain: Nom): (r: Nom)
    ensures |r| >= 1 && r[|r| - 1] == 0
  {
    EncodePieces(Text.Split(domain, Point)) + [0]
  }

  /** The non-empty labels, in order. */
  function NonVides(labels: seq<Nom>): (r: seq<Nom>)
    ensures forall k | 0 <= k < |r| :: r[k] != []
  {
    if labels == [] then []
    else if labels[0] == [] then NonVides(labels[1..])
    else [labels[0]] + NonVides(labels[1..])
  }

  /** Each non-empty label costs its length plus one byte. */
  function LongueurEtiquettes(labels: seq<Nom>): nat
  {
    if labels == [] then 0 else |labels[0]| + 1 + LongueurEtiquettes(labels[1..])
  }

  lemma {:induction false} EncodePiecesNonVides(labels: seq<Nom>)
    ensures EncodePieces(labels) == EncodePieces(NonVides(labels))
    ensures |EncodePieces(labels)| == LongueurEtiquettes(NonVides(labels))
  {
    if labels != [] {
      EncodePiecesNonVides(labels[1..]);
      if labels[0] != [] {
        var n := NonVides(labels);
        assert n[0] == labels[0] && n[1..] == NonVides(labels[1..]);
      }
    }
  }

  /** The encoded length: one length byte per non-empty label, the label bytes, and the terminator. */
  lemma NomEncodeLongueur(domain: Nom)
    ensures |NomEncode(domain)| == LongueurEtiquettes(NonVides(Text.Split(domain, Point))) + 1
  {
    EncodePiecesNonVides(Text.Split(domain, Point));
  }

  lemma EncodePiecesDe(labels: seq<Nom>, i: nat)
    requires i < |labels|
    ensures EncodePieces(labels[i..]) == Piece(labels[i]) + EncodePieces(labels[i + 1..])
  {
    assert labels[i..][1..] == labels[i + 1..];
  }

  /** The body of the encoding loop: a non-empty label is pushed as its length byte, then its bytes. */
  method PushLabel(encoded: Nom, etiquette: Nom) returns (r: Nom)
    ensures r == encoded + Piece(etiquette)
  {
    r := encoded;
    if etiquette != [] {
      r := r + [|etiquette| % 256];
      r := r + etiquette;
    }
  }

  /** `encode_domain_name`. */
  method EncodeDomainName(domain: Nom) returns (encoded: Nom)
    ensures encoded == NomEncode(domain)
  {
    var labels := Text.Split(domain, Point);
    encoded := [];
    var i := 0;
    while i < |labels|
      invariant 0 <= i <= |labels|
      invariant encoded + EncodePieces(labels[i..]) == EncodePieces(labels)
    {
      EncodePiecesDe(labels, i);
      Text.Concat3(encoded, Piece(labels[i]), EncodePieces(labels[i + 1..]));
      encoded := PushLabel(encoded, labels[i]);
      i := i + 1;
    }
    assert labels[i..] == [];
    encoded := encoded + [0];
  }

  /** Appending a decoded label: a dot first unless the name is still empty. */
  function Ajoute(domain: Nom, etiquette: Nom): Nom
  {
    (if domain == [] then [] else domain + [Point]) + etiquette
  }

  /**
   * The decoding loop of `decode_domain_name` from position `pos` with the
   * name read so far: fails on reaching the end before a 0 byte or on a label
   * running past the end; otherwise the name and the position after the 0.
   */
  function DecodeDepuis(data: seq<uint8>, pos: nat, domain: Nom): (r: Result<(Nom, nat), ErreurDns>)
    ensures r.Failure? ==> r.error == NomInsuffisant
    ensures r.Success? ==> pos < r.value.1 <= |data|
    decreases |data| - pos
  {
    if pos >= |data| then Failure(NomInsuffisant)
    else
      var length := data[pos];
      if length == 0 then Success((domain, pos + 1))
      else if pos + 1 + length > |data| then Failure(NomInsuffisant)
      else DecodeDepuis(data, pos + 1 + length, Ajoute(domain, data[pos + 1..pos + 1 + length]))
  }

  /** What `decode_domain_name(data, offset)` returns. */
  function NomDecode(data: seq<uint8>, offset: nat): Result<(Nom, nat), ErreurDns>
  {
    DecodeDepuis(data, offset, [])
  }

  /** `decode_domain_name`. */
  method DecodeDomainName(data: seq<uint8>, offset: nat) returns (r: Result<(Nom, nat), ErreurDns>)
    ensures r == NomDecode(data, offset)
  {
    var domain: Nom := [];
    var pos := offset;
    while true
      invariant DecodeDepuis(data, pos, domain) == NomDecode(data, offset)
      decreases |data| - pos
    {
      if pos >= |data| {
        return Failure(NomInsuffisant);
      }
      var length := data[pos];
      pos := pos + 1;
      if length == 0 {
        break;
      }
      if pos + length > |data| {
        return Failure(NomInsuffisant);
      }
      if domain != [] {
        domain := domain + [Point];
      }
      domain := domain + data[pos..pos + length];
      pos := pos + length;
    }
    return Success((domain, pos));
  }

  /** `data` holds `x` from position `pos` on. */
  predicate CommencePar(data: seq<uint8>, pos: nat, x: seq<uint8>)
  {
    pos + |x| <= |data| && data[pos..pos + |x|] == x
  }

  lemma Decoupe(data: seq<uint8>, pos: nat, a: seq<uint8>, b: seq<uint8>)
    requires CommencePar(data, pos, a + b)
    ensures CommencePar(data, pos, a) && CommencePar(data, pos + |a|, b)
  {
    assert data[pos..pos + |a|] == (a + b)[..|a|];
    assert data[pos + |a|..pos + |a| + |b|] == (a + b)[|a|..];
  }

  /** One step of the decoding loop: a label of `data[pos]` bytes that fits in the data. */
  lemma DecodePas(data: seq<uint8>, pos: nat, domain: Nom)
    requires pos < |data| && data[pos] != 0 && pos + 1 + data[pos] <= |data|
    ensures DecodeDepuis(data, pos, domain) == DecodeDepuis(data, pos + 1 + data[pos], Ajoute(domain, data[pos + 1..pos + 1 + data[pos]]))
  {
  }

  /** The step stated with the label read. */
  lemma DecodeEtiquette(data: seq<uint8>, pos: nat, domain: Nom, etiquette: Nom, suivant: nat)
    requires pos < |data| && data[pos] == |etiquette| && etiquette != []
    requires suivant == pos + 1 + |etiquette| <= |data| && data[pos + 1..suivant] == etiquette
    ensures DecodeDepuis(data, pos, domain) == DecodeDepuis(data, suivant, Ajoute(domain, etiquette))
  {
    DecodePas(data, pos, domain);
  }

  /** The name decoding folds the labels with `Ajoute`. */
  function Replie(domain: Nom, labels: seq<Nom>): Nom
    decreases |labels|
  {
    if labels == [] then domain else Replie(Ajoute(domain, labels[0]), labels[1..])
  }

  predicate EtiquettesLisibles(labels: seq<Nom>)
  {
    forall k | 0 <= k < |labels| :: 1 <= |labels[k]| <= 255
  }

  /** The terminator ends the name. */
  lemma DecodeFin(data: seq<uint8>, pos: nat, domain: Nom)
    requires CommencePar(data, pos, EncodePieces([]) + [0])
    ensures DecodeDepuis(data, pos, domain) == Success((domain, pos + 1))
  {
    assert EncodePieces([]) + [0] == [0];
    assert data[pos] == data[pos..pos + 1][0] == 0;
  }

  /** The encoding of a list of readable labels starts with the first one's length byte and bytes. */
  lemma EncodeTete(labels: seq<Nom>)
    requires EtiquettesLisibles(labels) && labels != []
    ensures EncodePieces(labels) + [0] == [|labels[0]|] + labels[0] + (EncodePieces(labels[1..]) + [0])
    ensures EtiquettesLisibles(labels[1..])
  {
    assert |labels[0]| % 256 == |labels[0]|;
    assert EtiquettesLisibles(labels[1..]) by {
      forall k | 0 <= k < |labels[1..]| ensures 1 <= |labels[1..][k]| <= 255 {
        assert labels[1..][k] == labels[k + 1];
      }
    }
  }

  /** What the first label of an encoding tells the decoder. */
  lemma TeteEncodee(data: seq<uint8>, pos: nat, labels: seq<Nom>, p: nat)
    requires EtiquettesLisibles(labels) && labels != []
    requires CommencePar(data, pos, EncodePieces(labels) + [0])
    requires p == pos + 1 + |labels[0]|
    ensures data[pos] == |labels[0]|
    ensures EtiquettesLisibles(labels[1..])
    ensures p <= |data| && data[pos + 1..p] == labels[0] && CommencePar(data, p, EncodePieces(labels[1..]) + [0])
    ensures p + |EncodePieces(labels[1..])| == pos + |EncodePieces(labels)|
  {
    EncodeTete(labels);
    OctetEtSuite(data, pos, |labels[0]| as uint8, labels[0], EncodePieces(labels[1..]) + [0]);
  }

  /** Data starting with a byte `b`, the bytes `l`, then `reste`. */
  lemma OctetEtSuite(data: seq<uint8>, pos: nat, b: uint8, l: seq<uint8>, reste: seq<uint8>)
    requires CommencePar(data, pos, [b] + l + reste)
    ensures pos < |data| && data[pos] == b
    ensures data[pos + 1..pos + 1 + |l|] == l && CommencePar(data, pos + 1 + |l|, reste)
  {
    Decoupe(data, pos, [b] + l, reste);
    Decoupe(data, pos, [b], l);
    assert data[pos] == data[pos..pos + 1][0];
  }

  /** One label of an encoding read: the rest of the decoding finishes the name. */
  lemma DecodePiecesPas(data: seq<uint8>, pos: nat, labels: seq<Nom>, domain: Nom, p: nat, fin: nat)
    requires EtiquettesLisibles(labels) && labels != []
    requires CommencePar(data, pos, EncodePieces(labels) + [0])
    requires p == pos + 1 + |labels[0]|
    requires DecodeDepuis(data, p, Ajoute(domain, labels[0])) == Success((Replie(Ajoute(domain, labels[0]), labels[1..]), fin))
    ensures DecodeDepuis(data, pos, domain) == Success((Replie(domain, labels), fin))
  {
    TeteEncodee(data, pos, labels, p);
    DecodeEtiquette(data, pos, domain, labels[0], p);
  }

  lemma {:induction false} DecodePieces(data: seq<uint8>, pos: nat, labels: seq<Nom>, domain: Nom, fin: nat)
    requires EtiquettesLisibles(labels)
    requires CommencePar(data, pos, EncodePieces(labels) + [0])
    requires fin == pos + |EncodePieces(labels)| + 1
    ensures DecodeDepuis(data, pos, domain) == Success((Replie(domain, labels), fin))
    decreases |labels|
  {
    if labels == [] {
      DecodeFin(data, pos, domain);
    } else {
      var p := pos + 1 + |labels[0]|;
      TeteEncodee(data, pos, labels, p);
      DecodePieces(data, p, labels[1..], Ajoute(domain, labels[0]), fin);
      DecodePiecesPas(data, pos, labels, domain, p, fin);
    }
  }

  lemma {:induction false} ReplieJoin(domain: Nom, labels: seq<Nom>)
    requires forall k | 0 <= k < |labels| :: labels[k] != []
    ensures Replie(domain, labels) == if labels == [] then domain
                                      else if domain == [] then Text.Join(labels, Point)
                                      else domain + [Point] + Text.Join(labels, Point)
    decreases |labels|
  {
    if labels != [] {
      assert forall k | 0 <= k < |labels[1..]| :: labels[1..][k] == labels[k + 1];
      ReplieJoin(Ajoute(domain, labels[0]), labels[1..]);
    }
  }

  lemma NonVidesLisibles(labels: seq<Nom>)
    requires forall k | 0 <= k < |labels| :: |labels[k]| <= 255
    ensures EtiquettesLisibles(NonVides(labels))
  {
    if labels != [] {
      assert forall k | 0 <= k < |labels[1..]| :: labels[1..][k] == labels[k + 1];
      NonVidesLisibles(labels[1..]);
    }
  }

  /**
   * Decoding an encoded name whose labels fit a length byte gives back the
   * non-empty labels joined with dots, and stops just past the 0 terminator.
   */
  lemma NomDecodeEncode(data: seq<uint8>, pos: nat, domain: Nom)
    requires forall k | 0 <= k < |Text.Split(domain, Point)| :: |Text.Split(domain, Point)[k]| <= 255
    requires CommencePar(data, pos, NomEncode(domain))
    ensures NomDecode(data, pos) == Success((Text.Join(NonVides(Text.Split(domain, Point)), Point), pos + |NomEncode(domain)|))
  {
    var labels := Text.Split(domain, Point);
    var ls := NonVides(labels);
    NomEncodeLisible(domain, labels, ls);
    NomDecodePieces(data, pos, ls, NomEncode(domain), pos + |NomEncode(domain)|);
  }

  /** Decoding the encoded non-empty labels `ls` gives them back joined with dots. */
  lemma NomDecodePieces(data: seq<uint8>, pos: nat, ls: seq<Nom>, enc: seq<uint8>, fin: nat)
    requires EtiquettesLisibles(ls) && forall k | 0 <= k < |ls| :: ls[k] != []
    requires enc == EncodePieces(ls) + [0] && CommencePar(data, pos, enc) && fin == pos + |enc|
    ensures NomDecode(data, pos) == Success((Text.Join(ls, Point), fin))
  {
    assert DecodeDepuis(data, pos, []) == Success((Replie([], ls), fin)) by {
      DecodePieces(data, pos, ls, [], fin);
    }
    NomJoint(data, pos, ls, fin);
  }

  /** The name read from the labels `ls` is `ls` joined with dots. */
  lemma NomJoint(data: seq<uint8>, pos: nat, ls: seq<Nom>, fin: nat)
    requires forall k | 0 <= k < |ls| :: ls[k] != []
    requires DecodeDepuis(data, pos, []) == Success((Replie([], ls), fin))
    ensures NomDecode(data, pos) == Success((Text.Join(ls, Point), fin))
  {
    ReplieJoin([], ls);
  }

  lemma NomEncodeLisible(domain: Nom, labels: seq<Nom>, ls: seq<Nom>)
    requires labels == Text.Split(domain, Point) && ls == NonVides(labels)
    requires forall k | 0 <= k < |labels| :: |labels[k]| <= 255
    ensures NomEncode(domain) == EncodePieces(ls) + [0] && EtiquettesLisibles(ls)
  {
    EncodePiecesNonVides(labels);
    NonVidesLisibles(labels);
  }

  /** A name that the decoder gives back unchanged: empty, or labels of 1 to 255 bytes. */
  predicate NomValide(domain: Nom)
  {
    domain == [] || forall k | 0 <= k < |Text.Split(domain, Point)| :: 1 <= |Text.Split(domain, Point)[k]| <= 255
  }

  lemma NonVidesIdentite(labels: seq<Nom>)
    requires forall k | 0 <= k < |labels| :: labels[k] != []
    ensures NonVides(labels) == labels
  {
    if labels != [] {
      assert forall k | 0 <= k < |labels[1..]| :: labels[1..][k] == labels[k + 1];
      NonVidesIdentite(labels[1..]);
    }
  }

  /** The name round trip: a valid name comes back exactly. */
  lemma NomRoundTrip(data: seq<uint8>, pos: nat, domain: Nom)
    requires NomValide(domain)
    requires CommencePar(data, pos, NomEncode(domain))
    ensures NomDecode(data, pos) == Success((domain, pos + |NomEncode(domain)|))
  {
    var labels := Text.Split(domain, Point);
    if domain == [] {
      assert labels == [[]];
      assert NonVides(labels) == NonVides(labels[1..]);
      assert labels[1..] == [];
    } else {
      NonVidesIdentite(labels);
      Text.JoinSplit(domain, Point);
    }
    NomDecodeEncode(data, pos, domain);
  }

  lemma TrancheDeTranche(s: seq<uint8>, a: nat, b: nat, c: nat)
    requires a + c <= |s| && b <= c
    ensures s[a..][b..c] == s[a + b..a + c]
  {
  }

  /** What the first label of a cut encoding tells the decoder. */
  lemma TeteTronquee(data: seq<uint8>, pos: nat, labels: seq<Nom>, p: nat)
    requires EtiquettesLisibles(labels) && labels != []
    requires pos < |data| < pos + |EncodePieces(labels)| + 1
    requires data[pos..] == (EncodePieces(labels) + [0])[..|data| - pos]
    requires p == pos + 1 + |labels[0]|
    ensures data[pos] == |labels[0]|
    ensures EtiquettesLisibles(labels[1..])
    ensures p <= |data| ==> p < |data| + |EncodePieces(labels[1..])| + 1 && data[pos + 1..p] == labels[0]
                            && data[p..] == (EncodePieces(labels[1..]) + [0])[..|data| - p]
  {
    EncodeTete(labels);
    TeteCoupee(data, pos, [|labels[0]|] + labels[0], EncodePieces(labels[1..]) + [0], labels[0], p);
  }

  /** A cut of a label's length byte and bytes `a`, followed by `b`. */
  lemma TeteCoupee(data: seq<uint8>, pos: nat, a: seq<uint8>, b: seq<uint8>, l: seq<uint8>, p: nat)
    requires |a| == 1 + |l| && a[1..] == l
    requires pos < |data| < pos + |a| + |b|
    requires data[pos..] == (a + b)[..|data| - pos]
    requires p == pos + |a|
    ensures data[pos] == a[0]
    ensures p <= |data| ==> p < |data| + |b| && data[pos + 1..p] == l && data[p..] == b[..|data| - p]
  {
    assert data[pos] == data[pos..][0];
    if p <= |data| {
      CoupeApres(data[pos..], a, b, |a|);
      TrancheDeTranche(data, pos, 1, |a|);
      assert data[p..] == data[pos..][|a|..];
    }
  }

  /** A cut of `a + b` taken past the whole of `a`. */
  lemma CoupeApres(d: seq<uint8>, a: seq<uint8>, b: seq<uint8>, la: nat)
    requires la == |a| >= 1 && la <= |d| < |a| + |b| && d == (a + b)[..|d|]
    ensures d[1..la] == a[1..] && d[la..] == b[..|d| - la]
  {
  }

  lemma {:induction false} DecodePiecesTronque(data: seq<uint8>, pos: nat, labels: seq<Nom>, domain: Nom)
    requires EtiquettesLisibles(labels)
    requires pos <= |data| < pos + |EncodePieces(labels)| + 1
    requires data[pos..] == (EncodePieces(labels) + [0])[..|data| - pos]
    ensures DecodeDepuis(data, pos, domain) == Failure(NomInsuffisant)
    decreases |labels|
  {
    if pos < |data| {
      if labels == [] {
        assert false;
      } else {
        var l := labels[0];
        var p := pos + 1 + |l|;
        TeteTronquee(data, pos, labels, p);
        assert 1 <= |l|;
        if p <= |data| {
          DecodePiecesTronque(data, p, labels[1..], Ajoute(domain, l));
          DecodeEtiquette(data, pos, domain, l, p);
        } else {
          assert DecodeDepuis(data, pos, domain) == Failure(NomInsuffisant);
        }
      }
    }
  }

  /** A name cut short anywhere before its terminator fails to decode. */
  lemma NomTronque(data: seq<uint8>, pos: nat, domain: Nom)
    requires NomValide(domain)
    requires pos <= |data| < pos + |NomEncode(domain)|
    requires data[pos..] == NomEncode(domain)[..|data| - pos]
    ensures NomDecode(data, pos) == Failure(NomInsuffisant)
  {
    var ls := EtiquettesDe(domain);
    DecodePiecesTronque(data, pos, ls, []);
  }

  /** The labels that a valid name's encoding writes. */
  lemma EtiquettesDe(domain: Nom) returns (ls: seq<Nom>)
    requires NomValide(domain)
    ensures EtiquettesLisibles(ls) && NomEncode(domain) == EncodePieces(ls) + [0]
  {
    var labels := Text.Split(domain, Point);
    EncodePiecesNonVides(labels);
    if domain == [] {
      assert labels == [[]];
    } else {
      NonVidesIdentite(labels);
    }
    NonVidesLisibles(labels);
    ls := NonVides(labels);
  }

  // ---------------------------------------------------------------- questions and answers

  /** `DnsQuestion::new`: class IN. */
  function NouvelleQuestion(domain: Nom, qtype: uint16): (q: DnsQuestion)
    ensures q.qname == domain && q.qtype == qtype && q.qclass == ClasseIn
  {
    DnsQuestion(domain, qtype, 1)
  }

  /** `DnsQuestion::to_bytes`. */
  function QuestionToBytes(q: DnsQuestion): (r: seq<uint8>)
    ensures |r| == |NomEncode(q.qname)| + 4
  {
    NomEncode(q.qname) + U16ToBytes(q.qtype) + U16ToBytes(q.qclass)
  }

  /** `DnsAnswer::new_a_record`: type A, class IN, four bytes of address. */
  function NouvelEnregistrementA(domain: Nom, ip: seq<uint8>, ttl: uint32): (a: DnsAnswer)
    requires |ip| == 4
    ensures a.name == domain && a.rtype == DnsTypeA && a.rclass == ClasseIn && a.ttl == ttl
    ensures a.rdata == ip && a.rdlength == |a.rdata|
  {
    DnsAnswer(domain, 1, 1, ttl, 4, ip)
  }

  /** `DnsAnswer::to_bytes`; note that the written length is the `rdlength` field, not the size of `rdata`. */
  function AnswerToBytes(a: DnsAnswer): (r: seq<uint8>)
    ensures |r| == |NomEncode(a.name)| + 10 + |a.rdata|
  {
    NomEncode(a.name) + U16ToBytes(a.rtype) + U16ToBytes(a.rclass) + U32ToBytes(a.ttl)
      + U16ToBytes(a.rdlength) + a.rdata
  }

  // ---------------------------------------------------------------- messages

  /** `DnsMessage::new_query`: one question, no answers, QR clear. */
  function NouvelleRequete(id: uint16, domain: Nom, qtype: uint16): (m: DnsMessage)
    ensures m.header.id == id && Et(m.header.flags, BitQr) == 0 && Rcode(m.header.flags) == 0
    ensures m.header.qdcount == 1 && m.header.ancount == 0
    ensures m.questions == [NouvelleQuestion(domain, qtype)] && m.answers == []
  {
    var header := NouvelEnTete(id, false);
    DnsMessage(header.(qdcount := 1), [NouvelleQuestion(domain, qtype)], [])
  }

  /** `DnsMessage::new_response`: the query's id, question count and questions, QR set, nothing answered yet. */
  function NouvelleReponse(query: DnsMessage): (m: DnsMessage)
    ensures m.header.id == query.header.id && m.header.qdcount == query.header.qdcount
    ensures Et(m.header.flags, BitQr) != 0 && Et(m.header.flags, BitRd) != 0 && Rcode(m.header.flags) == 0
    ensures m.header.ancount == 0 && m.header.nscount == 0 && m.header.arcount == 0
    ensures m.questions == query.questions && m.answers == []
  {
    var header := NouvelEnTete(query.header.id, true);
    DnsMessage(header.(qdcount := query.header.qdcount), query.questions, [])
  }

  function QuestionsToBytes(qs: seq<DnsQuestion>): seq<uint8>
  {
    if qs == [] then [] else QuestionToBytes(qs[0]) + QuestionsToBytes(qs[1..])
  }

  function AnswersToBytes(ans: seq<DnsAnswer>): seq<uint8>
  {
    if ans == [] then [] else AnswerToBytes(ans[0]) + AnswersToBytes(ans[1..])
  }

  /** What `DnsMessage::to_bytes` writes: header, questions, answers. */
  function MessageToBytes(m: DnsMessage): (r: seq<uint8>)
    ensures |r| >= 12 && r[..12] == HeaderToBytes(m.header)
  {
    HeaderToBytes(m.header) + QuestionsToBytes(m.questions) + AnswersToBytes(m.answers)
  }

  lemma QuestionsToBytesDe(qs: seq<DnsQuestion>, i: nat)
    requires i < |qs|
    ensures QuestionsToBytes(qs[i..]) == QuestionToBytes(qs[i]) + QuestionsToBytes(qs[i + 1..])
  {
    assert qs[i..][1..] == qs[i + 1..];
  }

  lemma AnswersToBytesDe(ans: seq<DnsAnswer>, i: nat)
    requires i < |ans|
    ensures AnswersToBytes(ans[i..]) == AnswerToBytes(ans[i]) + AnswersToBytes(ans[i + 1..])
  {
    assert ans[i..][1..] == ans[i + 1..];
  }

  /** `DnsQuestion::to_bytes` with the name written by the encoding loop. */
  method QuestionBytes(q: DnsQuestion) returns (bytes: seq<uint8>)
    ensures bytes == QuestionToBytes(q)
  {
    bytes := EncodeDomainName(q.qname);
    bytes := bytes + U16ToBytes(q.qtype) + U16ToBytes(q.qclass);
  }

  /** `DnsAnswer::to_bytes` with the name written by the encoding loop. */
  method AnswerBytes(a: DnsAnswer) returns (bytes: seq<uint8>)
    ensures bytes == AnswerToBytes(a)
  {
    bytes := EncodeDomainName(a.name);
    bytes := bytes + U16ToBytes(a.rtype) + U16ToBytes(a.rclass) + U32ToBytes(a.ttl) + U16ToBytes(a.rdlength);
    bytes := bytes + a.rdata;
  }

  /** The question loop of `DnsMessage::to_bytes`. */
  method WriteQuestions(qs: seq<DnsQuestion>) returns (bytes: seq<uint8>)
    ensures bytes == QuestionsToBytes(qs)
  {
    bytes := [];
    var i := 0;
    while i < |qs|
      invariant 0 <= i <= |qs|
      invariant bytes + QuestionsToBytes(qs[i..]) == QuestionsToBytes(qs)
    {
      QuestionsToBytesDe(qs, i);
      var b := QuestionBytes(qs[i]);
      Text.Concat3(bytes, b, QuestionsToBytes(qs[i + 1..]));
      bytes := bytes + b;
      i := i + 1;
    }
    assert qs[i..] == [];
  }

  /** The answer loop of `DnsMessage::to_bytes`. */
  method WriteAnswers(ans: seq<DnsAnswer>) returns (bytes: seq<uint8>)
    ensures bytes == AnswersToBytes(ans)
  {
    bytes := [];
    var j := 0;
    while j < |ans|
      invariant 0 <= j <= |ans|
      invariant bytes + AnswersToBytes(ans[j..]) == AnswersToBytes(ans)
    {
      AnswersToBytesDe(ans, j);
      var b := AnswerBytes(ans[j]);
      Text.Concat3(bytes, b, AnswersToBytes(ans[j + 1..]));
      bytes := bytes + b;
      j := j + 1;
    }
    assert ans[j..] == [];
  }

  /** `DnsMessage::to_bytes`: header, then every question, then every answer. */
  method ToBytes(m: DnsMessage) returns (bytes: seq<uint8>)
    ensures bytes == MessageToBytes(m)
  {
    bytes := HeaderToBytes(m.header);
    var questions := WriteQuestions(m.questions);
    bytes := bytes + questions;
    var answers := WriteAnswers(m.answers);
    bytes := bytes + answers;
  }

  // ---------------------------------------------------------------- parsing

  /** One question read at `pos`: its name, then type and class. */
  function LireQuestion(data: seq<uint8>, pos: nat): (r: Result<(DnsQuestion, nat), ErreurDns>)
    ensures r.Failure? ==> r.error != EnTeteInsuffisant
    ensures r.Success? ==> pos < r.value.1 <= |data|
  {
    if pos >= |data| then Failure(QuestionsInsuffisantes)
    else match NomDecode(data, pos)
      case Failure(e) => Failure(e)
      case Success(lu) =>
        var p := lu.1;
        if p + 4 > |data| then Failure(TypeClasseInsuffisant)
        else Success((DnsQuestion(lu.0, U16FromBytes(data[p], data[p + 1]), U16FromBytes(data[p + 2], data[p + 3])), p + 4))
  }

  /** The question loop of `from_bytes`: `n` more questions to read; any shortfall is an error. */
  function LireQuestions(data: seq<uint8>, pos: nat, n: nat, lues: seq<DnsQuestion>): (r: Result<(seq<DnsQuestion>, nat), ErreurDns>)
    ensures r.Failure? ==> r.error != EnTeteInsuffisant
    ensures r.Success? ==> |r.value.0| == |lues| + n && r.value.0[..|lues|] == lues && pos <= r.value.1
    decreases n
  {
    if n == 0 then Success((lues, pos))
    else match LireQuestion(data, pos)
      case Failure(e) => Failure(e)
      case Success(lu) => LireQuestions(data, lu.1, n - 1, lues + [lu.0])
  }

  /**
   * One answer read at `pos`: `None` where the loop of `from_bytes` breaks
   * (no data left, no room for the fixed fields or for the rdata); a name
   * that runs past the end is an error.
   */
  function LireReponse(data: seq<uint8>, pos: nat): (r: Result<Option<(DnsAnswer, nat)>, ErreurDns>)
    ensures r.Failure? ==> r.error == NomInsuffisant
    ensures r.Success? && r.value.Some? ==> pos < r.value.value.1 <= |data| && r.value.value.0.rdlength == |r.value.value.0.rdata|
  {
    if pos >= |data| then Success(None)
    else match NomDecode(data, pos)
      case Failure(e) => Failure(e)
      case Success(lu) =>
        var p := lu.1;
        if p + 10 > |data| then Success(None)
        else
          var rdlength := U16FromBytes(data[p + 8], data[p + 9]);
          if p + 10 + rdlength > |data| then Success(None)
          else
            var answer := DnsAnswer(lu.0, U16FromBytes(data[p], data[p + 1]), U16FromBytes(data[p + 2], data[p + 3]),
                                    U32FromBytes(data[p + 4], data[p + 5], data[p + 6], data[p + 7]),
                                    rdlength, data[p + 10..p + 10 + rdlength]);
            Success(Some((answer, p + 10 + rdlength)))
  }

  /** The answer loop of `from_bytes`: at most `n` more answers; a break keeps those read so far. */
  function LireReponses(data: seq<uint8>, pos: nat, n: nat, lues: seq<DnsAnswer>): (r: Result<seq<DnsAnswer>, ErreurDns>)
    ensures r.Failure? ==> r.error == NomInsuffisant
    ensures r.Success? ==> |lues| <= |r.value| <= |lues| + n && r.value[..|lues|] == lues
    decreases n
  {
    if n == 0 then Success(lues)
    else match LireReponse(data, pos)
      case Failure(e) => Failure(e)
      case Success(None) => Success(lues)
      case Success(Some(lu)) => LireReponses(data, lu.1, n - 1, lues + [lu.0])
  }

  /** What `DnsMessage::from_bytes` returns. */
  function MessageFromBytes(data: seq<uint8>): (r: Result<DnsMessage, ErreurDns>)
    ensures r.Failure? && r.error == EnTeteInsuffisant <==> |data| < 12
    ensures r.Success? ==> Success(r.value.header) == HeaderFromBytes(data)
    ensures r.Success? ==> |r.value.questions| == r.value.header.qdcount
    ensures r.Success? ==> |r.value.answers| <= r.value.header.ancount
  {
    if |data| < 12 then Failure(EnTeteInsuffisant)
    else
      var header := HeaderFromBytes(data[..12]).value;
      match LireQuestions(data, 12, header.qdcount, [])
      case Failure(e) => Failure(e)
      case Success(qs) =>
        match LireReponses(data, qs.1, header.ancount, [])
        case Failure(e) => Failure(e)
        case Success(ans) => Success(DnsMessage(header, qs.0, ans))
  }

  /** The first twelve bytes decide the header whatever follows. */
  lemma HeaderPrefixe(data: seq<uint8>)
    requires |data| >= 12
    ensures HeaderFromBytes(data[..12]) == HeaderFromBytes(data)
  {
  }

  /** The loop body of `from_bytes` for one question. */
  method ReadQuestion(data: seq<uint8>, pos: nat) returns (r: Result<(DnsQuestion, nat), ErreurDns>)
    ensures r == LireQuestion(data, pos)
  {
    if pos >= |data| {
      return Failure(QuestionsInsuffisantes);
    }
    var nom := DecodeDomainName(data, pos);
    if nom.Failure? {
      return Failure(nom.error);
    }
    var p := nom.value.1;
    if p + 4 > |data| {
      return Failure(TypeClasseInsuffisant);
    }
    var qtype := U16FromBytes(data[p], data[p + 1]);
    var qclass := U16FromBytes(data[p + 2], data[p + 3]);
    return Success((DnsQuestion(nom.value.0, qtype, qclass), p + 4));
  }

  /** The loop body of `from_bytes` for one answer. */
  method ReadAnswer(data: seq<uint8>, pos: nat) returns (r: Result<Option<(DnsAnswer, nat)>, ErreurDns>)
    ensures r == LireReponse(data, pos)
  {
    if pos >= |data| {
      return Success(None);
    }
    var nom := DecodeDomainName(data, pos);
    if nom.Failure? {
      return Failure(nom.error);
    }
    var p := nom.value.1;
    if p + 10 > |data| {
      return Success(None);
    }
    var rtype := U16FromBytes(data[p], data[p + 1]);
    var rclass := U16FromBytes(data[p + 2], data[p + 3]);
    var ttl := U32FromBytes(data[p + 4], data[p + 5], data[p + 6], data[p + 7]);
    var rdlength := U16FromBytes(data[p + 8], data[p + 9]);
    p := p + 10;
    if p + rdlength > |data| {
      return Success(None);
    }
    var rdata := data[p..p + rdlength];
    return Success(Some((DnsAnswer(nom.value.0, rtype, rclass, ttl, rdlength, rdata), p + rdlength)));
  }

  /** The question loop of `from_bytes`. */
  method ReadQuestions(data: seq<uint8>, debut: nat, n: nat) returns (r: Result<(seq<DnsQuestion>, nat), ErreurDns>)
    ensures r == LireQuestions(data, debut, n, [])
  {
    var pos := debut;
    var questions := [];
    var reste := n;
    while reste > 0
      invariant LireQuestions(data, pos, reste, questions) == LireQuestions(data, debut, n, [])
    {
      var q := ReadQuestion(data, pos);
      if q.Failure? {
        return Failure(q.error);
      }
      questions := questions + [q.value.0];
      pos := q.value.1;
      reste := reste - 1;
    }
    return Success((questions, pos));
  }

  /** The answer loop of `from_bytes`. */
  method ReadAnswers(data: seq<uint8>, debut: nat, n: nat) returns (r: Result<seq<DnsAnswer>, ErreurDns>)
    ensures r == LireReponses(data, debut, n, [])
  {
    var pos := debut;
    var answers := [];
    var reste := n;
    while reste > 0
      invariant LireReponses(data, pos, reste, answers) == LireReponses(data, debut, n, [])
    {
      var a := ReadAnswer(data, pos);
      if a.Failure? {
        return Failure(a.error);
      }
      if a.value.None? {
        return Success(answers);
      }
      answers := answers + [a.value.value.0];
      pos := a.value.value.1;
      reste := reste - 1;
    }
    return Success(answers);
  }

  /** `DnsMessage::from_bytes`. */
  method FromBytes(data: seq<uint8>) returns (r: Result<DnsMessage, ErreurDns>)
    ensures r == MessageFromBytes(data)
  {
    if |data| < 12 {
      return Failure(EnTeteInsuffisant);
    }
    var header := HeaderFromBytes(data[..12]).value;
    var questions := ReadQuestions(data, 12, header.qdcount);
    if questions.Failure? {
      return Failure(questions.error);
    }
    var answers := ReadAnswers(data, questions.value.1, header.ancount);
    if answers.Failure? {
      return Failure(answers.error);
    }
    return Success(DnsMessage(header, questions.value.0, answers.value));
  }

  // ---------------------------------------------------------------- message round trip

  /** A question whose name the encoder can write back. */
  predicate QuestionValide(q: DnsQuestion)
  {
    NomValide(q.qname)
  }

  /** An answer whose name is valid and whose `rdlength` is the size of its data. */
  predicate ReponseValide(a: DnsAnswer)
  {
    NomValide(a.name) && a.rdlength == |a.rdata|
  }

  predicate QuestionsValides(qs: seq<DnsQuestion>)
  {
    qs == [] || (QuestionValide(qs[0]) && QuestionsValides(qs[1..]))
  }

  predicate ReponsesValides(ans: seq<DnsAnswer>)
  {
    ans == [] || (ReponseValide(ans[0]) && ReponsesValides(ans[1..]))
  }

  /** The counts of the header match the lists and every item can be read back. */
  predicate MessageValide(m: DnsMessage)
  {
    && m.header.qdcount == |m.questions|
    && m.header.ancount == |m.answers|
    && QuestionsValides(m.questions)
    && ReponsesValides(m.answers)
  }

  /** The ten fixed bytes of an answer: type, class, TTL and the written length. */
  function Fixe(a: DnsAnswer): (r: seq<uint8>)
    ensures |r| == 10
  {
    U16ToBytes(a.rtype) + U16ToBytes(a.rclass) + U32ToBytes(a.ttl) + U16ToBytes(a.rdlength)
  }

  lemma QuestionForme(q: DnsQuestion)
    ensures QuestionToBytes(q) == NomEncode(q.qname) + (U16ToBytes(q.qtype) + U16ToBytes(q.qclass))
  {
  }

  lemma AnswerForme(a: DnsAnswer)
    ensures AnswerToBytes(a) == NomEncode(a.name) + (Fixe(a) + a.rdata)
  {
  }

  lemma LireU16(data: seq<uint8>, p: nat, x: uint16)
    requires CommencePar(data, p, U16ToBytes(x))
    ensures U16FromBytes(data[p], data[p + 1]) == x
  {
    assert data[p] == data[p..p + 2][0] && data[p + 1] == data[p..p + 2][1];
    U16RoundTrip(x);
  }

  lemma LireU32(data: seq<uint8>, p: nat, x: uint32)
    requires CommencePar(data, p, U32ToBytes(x))
    ensures U32FromBytes(data[p], data[p + 1], data[p + 2], data[p + 3]) == x
  {
    var b := data[p..p + 4];
    assert data[p] == b[0] && data[p + 1] == b[1] && data[p + 2] == b[2] && data[p + 3] == b[3];
    U32RoundTrip(x);
  }

  /** The fixed bytes of `a` read back as its type, class, TTL and length. */
  lemma LireFixe(data: seq<uint8>, p: nat, a: DnsAnswer)
    requires CommencePar(data, p, Fixe(a))
    ensures U16FromBytes(data[p], data[p + 1]) == a.rtype
    ensures U16FromBytes(data[p + 2], data[p + 3]) == a.rclass
    ensures U32FromBytes(data[p + 4], data[p + 5], data[p + 6], data[p + 7]) == a.ttl
    ensures U16FromBytes(data[p + 8], data[p + 9]) == a.rdlength
  {
    var t := U16ToBytes(a.rtype);
    var c := U16ToBytes(a.rclass);
    var l := U32ToBytes(a.ttl);
    Decoupe(data, p, t + c + l, U16ToBytes(a.rdlength));
    Decoupe(data, p, t + c, l);
    Decoupe(data, p, t, c);
    LireU16(data, p, a.rtype);
    LireU16(data, p + 2, a.rclass);
    LireU32(data, p + 4, a.ttl);
    LireU16(data, p + 8, a.rdlength);
  }

  /** An encoded question reads back as itself, ending at `suivant`. */
  lemma LireQuestionEncodee(data: seq<uint8>, pos: nat, q: DnsQuestion, suivant: nat)
    requires QuestionValide(q) && CommencePar(data, pos, QuestionToBytes(q))
    requires suivant == pos + |QuestionToBytes(q)|
    ensures LireQuestion(data, pos) == Success((q, suivant))
  {
    QuestionForme(q);
    Decoupe(data, pos, NomEncode(q.qname), U16ToBytes(q.qtype) + U16ToBytes(q.qclass));
    NomRoundTrip(data, pos, q.qname);
    var p := pos + |NomEncode(q.qname)|;
    Decoupe(data, p, U16ToBytes(q.qtype), U16ToBytes(q.qclass));
    LireU16(data, p, q.qtype);
    LireU16(data, p + 2, q.qclass);
  }

  /** The first encoded question read, the loop ends where the rest of it ends. */
  lemma LireQuestionsTete(data: seq<uint8>, pos: nat, qs: seq<DnsQuestion>, lues: seq<DnsQuestion>, n: nat, p: nat,
                          tout: seq<DnsQuestion>, fin: nat)
    requires qs != [] && n == |qs| && QuestionValide(qs[0])
    requires CommencePar(data, pos, QuestionToBytes(qs[0])) && p == pos + |QuestionToBytes(qs[0])|
    requires LireQuestions(data, p, n - 1, lues + [qs[0]]) == Success((tout, fin))
    ensures LireQuestions(data, pos, n, lues) == Success((tout, fin))
  {
    LireQuestionEncodee(data, pos, qs[0], p);
    LireQuestionsPas(data, pos, n, lues, qs[0], p);
  }

  lemma {:induction false} LireQuestionsEncodees(data: seq<uint8>, pos: nat, qs: seq<DnsQuestion>, lues: seq<DnsQuestion>, n: nat, fin: nat)
    requires QuestionsValides(qs) && n == |qs|
    requires CommencePar(data, pos, QuestionsToBytes(qs)) && fin == pos + |QuestionsToBytes(qs)|
    ensures LireQuestions(data, pos, n, lues) == Success((lues + qs, fin))
    decreases n
  {
    if qs == [] {
      assert lues + qs == lues;
    } else {
      var b := QuestionToBytes(qs[0]);
      var p := pos + |b|;
      var tout := (lues + [qs[0]]) + qs[1..];
      Decoupe(data, pos, b, QuestionsToBytes(qs[1..]));
      LireQuestionsEncodees(data, p, qs[1..], lues + [qs[0]], n - 1, fin);
      LireQuestionsTete(data, pos, qs, lues, n, p, tout, fin);
      Avance(lues, qs);
    }
  }

  /** An encoded answer reads back as itself, ending at `suivant`. */
  lemma LireReponseEncodee(data: seq<uint8>, pos: nat, a: DnsAnswer, suivant: nat)
    requires ReponseValide(a) && CommencePar(data, pos, AnswerToBytes(a))
    requires suivant == pos + |AnswerToBytes(a)|
    ensures LireReponse(data, pos) == Success(Some((a, suivant)))
  {
    var p := pos + |NomEncode(a.name)|;
    ReponseParties(data, pos, a, p);
    NomRoundTrip(data, pos, a.name);
    LireFixe(data, p, a);
    LireReponseDe(data, pos, a, p, suivant);
  }

  /** Where the name, the fixed fields and the data of an encoded answer sit. */
  lemma ReponseParties(data: seq<uint8>, pos: nat, a: DnsAnswer, p: nat)
    requires CommencePar(data, pos, AnswerToBytes(a)) && p == pos + |NomEncode(a.name)|
    ensures CommencePar(data, pos, NomEncode(a.name))
    ensures CommencePar(data, p, Fixe(a)) && CommencePar(data, p + 10, a.rdata)
  {
    AnswerForme(a);
    Decoupe(data, pos, NomEncode(a.name), Fixe(a) + a.rdata);
    Decoupe(data, p, Fixe(a), a.rdata);
  }

  /** An answer read field by field: its name ends at `p`, its data at `suivant`. */
  lemma LireReponseDe(data: seq<uint8>, pos: nat, a: DnsAnswer, p: nat, suivant: nat)
    requires pos < |data| && NomDecode(data, pos) == Success((a.name, p))
    requires a.rdlength == |a.rdata| && suivant == p + 10 + a.rdlength
    requires CommencePar(data, p + 10, a.rdata)
    requires U16FromBytes(data[p], data[p + 1]) == a.rtype
    requires U16FromBytes(data[p + 2], data[p + 3]) == a.rclass
    requires U32FromBytes(data[p + 4], data[p + 5], data[p + 6], data[p + 7]) == a.ttl
    requires U16FromBytes(data[p + 8], data[p + 9]) == a.rdlength
    ensures LireReponse(data, pos) == Success(Some((a, suivant)))
  {
  }

  /** One answer read: the loop goes on from where it ended, with one answer more. */
  lemma LireReponsesPas(data: seq<uint8>, pos: nat, n: nat, lues: seq<DnsAnswer>, a: DnsAnswer, p: nat)
    requires n > 0 && LireReponse(data, pos) == Success(Some((a, p)))
    ensures LireReponses(data, pos, n, lues) == LireReponses(data, p, n - 1, lues + [a])
  {
  }

  /** No answer read: the loop stops, with an error or with the answers so far. */
  lemma LireReponsesArret(data: seq<uint8>, pos: nat, n: nat, lues: seq<DnsAnswer>)
    requires n > 0 && (LireReponse(data, pos).Failure? || LireReponse(data, pos) == Success(None))
    ensures LireReponses(data, pos, n, lues)
            == if LireReponse(data, pos).Failure? then Failure(NomInsuffisant) else Success(lues)
  {
  }

  /** One question read: the loop goes on from where it ended, with one question more. */
  lemma LireQuestionsPas(data: seq<uint8>, pos: nat, n: nat, lues: seq<DnsQuestion>, q: DnsQuestion, p: nat)
    requires n > 0 && LireQuestion(data, pos) == Success((q, p))
    ensures LireQuestions(data, pos, n, lues) == LireQuestions(data, p, n - 1, lues + [q])
  {
  }

  /** The first encoded answer read, the loop ends as it does from the next one. */
  lemma LireReponsesTete(data: seq<uint8>, pos: nat, ans: seq<DnsAnswer>, lues: seq<DnsAnswer>, n: nat, p: nat,
                         r: Result<seq<DnsAnswer>, ErreurDns>)
    requires ans != [] && n > 0 && ReponseValide(ans[0])
    requires CommencePar(data, pos, AnswerToBytes(ans[0])) && p == pos + |AnswerToBytes(ans[0])|
    requires LireReponses(data, p, n - 1, lues + [ans[0]]) == r
    ensures LireReponses(data, pos, n, lues) == r
  {
    LireReponseEncodee(data, pos, ans[0], p);
    LireReponsesPas(data, pos, n, lues, ans[0], p);
  }

  /** The answers `deb` read one after the other from `pos`, the last one ending at `fin`. */
  predicate Enchainees(data: seq<uint8>, pos: nat, deb: seq<DnsAnswer>, fin: nat)
    decreases |deb|
  {
    if deb == [] then pos == fin
    else
      var lu := LireReponse(data, pos);
      lu.Success? && lu.value.Some? && lu.value.value.0 == deb[0] && Enchainees(data, lu.value.value.1, deb[1..], fin)
  }

  /** Encoded answers are read back one after the other. */
  lemma {:induction false} EnchaineesEncodees(data: seq<uint8>, pos: nat, deb: seq<DnsAnswer>, fin: nat)
    requires ReponsesValides(deb)
    requires CommencePar(data, pos, AnswersToBytes(deb)) && fin == pos + |AnswersToBytes(deb)|
    ensures Enchainees(data, pos, deb, fin)
    decreases |deb|
  {
    if deb != [] {
      var b := AnswerToBytes(deb[0]);
      var p := pos + |b|;
      Decoupe(data, pos, b, AnswersToBytes(deb[1..]));
      LireReponseEncodee(data, pos, deb[0], p);
      EnchaineesEncodees(data, p, deb[1..], fin);
    }
  }

  /**
   * Answers `deb` read one after the other: the loop keeps them and ends as
   * it does from `fin` with `reste` answers still to read.
   */
  lemma {:induction false} LireReponsesLues(data: seq<uint8>, pos: nat, deb: seq<DnsAnswer>, lues: seq<DnsAnswer>, n: nat,
                                            fin: nat, reste: nat, tout: seq<DnsAnswer>, r: Result<seq<DnsAnswer>, ErreurDns>)
    requires Enchainees(data, pos, deb, fin) && reste + |deb| == n && tout == lues + deb
    requires LireReponses(data, fin, reste, tout) == r
    ensures LireReponses(data, pos, n, lues) == r
    decreases |deb|
  {
    if deb == [] {
      assert lues + deb == lues;
    } else {
      var p := LireReponse(data, pos).value.value.1;
      Avance(lues, deb);
      LireReponsesLues(data, p, deb[1..], lues + [deb[0]], n - 1, fin, reste, tout, r);
      LireReponsesPas(data, pos, n, lues, deb[0], p);
    }
  }

  lemma LireReponsesEncodees(data: seq<uint8>, pos: nat, ans: seq<DnsAnswer>, lues: seq<DnsAnswer>, n: nat)
    requires ReponsesValides(ans) && n == |ans|
    requires CommencePar(data, pos, AnswersToBytes(ans))
    ensures LireReponses(data, pos, n, lues) == Success(lues + ans)
  {
    var fin := pos + |AnswersToBytes(ans)|;
    EnchaineesEncodees(data, pos, ans, fin);
    assert LireReponses(data, fin, 0, lues + ans) == Success(lues + ans);
    LireReponsesLues(data, pos, ans, lues, n, fin, 0, lues + ans, Success(lues + ans));
  }

  /** Moving the head of `s` onto the end of `lues` leaves the concatenation unchanged. */
  lemma Avance<T>(lues: seq<T>, s: seq<T>)
    requires s != []
    ensures (lues + [s[0]]) + s[1..] == lues + s
  {
    assert s == [s[0]] + s[1..];
  }

  /** The same for the first `j` elements of `s`. */
  lemma AvancePrefixe<T>(lues: seq<T>, s: seq<T>, j: nat)
    requires 0 < j <= |s|
    ensures (lues + [s[0]]) + s[1..][..j - 1] == lues + s[..j]
  {
    assert s[..j] == [s[0]] + s[1..][..j - 1];
  }

  /** Twelve header bytes, then the rest, cut at `c`. */
  lemma EnTeteEtSuite(h: seq<uint8>, suite: seq<uint8>, c: nat)
    requires |h| == 12 && 12 <= c <= |h| + |suite|
    ensures (h + suite)[..c][..12] == h && (h + suite)[..c][12..] == suite[..c - 12]
  {
  }

  /** What `from_bytes` returns once header and questions are read: what the answer loop returns. */
  lemma MessageDe(data: seq<uint8>, h: DnsHeader, qs: seq<DnsQuestion>, p: nat, r: Result<seq<DnsAnswer>, ErreurDns>)
    requires |data| >= 12 && HeaderFromBytes(data[..12]) == Success(h)
    requires LireQuestions(data, 12, h.qdcount, []) == Success((qs, p))
    requires LireReponses(data, p, h.ancount, []) == r
    ensures MessageFromBytes(data) == if r.Success? then Success(DnsMessage(h, qs, r.value)) else Failure(r.error)
  {
  }

  /** The header, then a cut of the questions and answers. */
  lemma MessageCoupeEnTete(m: DnsMessage, c: nat, data: seq<uint8>)
    requires 12 <= c <= |MessageToBytes(m)| && data == MessageToBytes(m)[..c]
    ensures |data| >= 12 && HeaderFromBytes(data[..12]) == Success(m.header)
  {
    var h := HeaderToBytes(m.header);
    var suite := QuestionsToBytes(m.questions) + AnswersToBytes(m.answers);
    Text.Concat3(h, QuestionsToBytes(m.questions), AnswersToBytes(m.answers));
    EnTeteEtSuite(h, suite, c);
    HeaderRoundTrip(m.header, []);
    assert h + [] == h;
  }

  lemma MessageCoupeSuite(m: DnsMessage, c: nat, data: seq<uint8>)
    requires 12 <= c <= |MessageToBytes(m)| && data == MessageToBytes(m)[..c]
    ensures |data| == c && data[12..] == (QuestionsToBytes(m.questions) + AnswersToBytes(m.answers))[..|data| - 12]
  {
    var h := HeaderToBytes(m.header);
    var suite := QuestionsToBytes(m.questions) + AnswersToBytes(m.answers);
    Text.Concat3(h, QuestionsToBytes(m.questions), AnswersToBytes(m.answers));
    EnTeteEtSuite(h, suite, c);
  }

  /** Where the three parts of `h + q + a` sit. */
  lemma TroisParties(h: seq<uint8>, q: seq<uint8>, a: seq<uint8>)
    ensures (h + q + a)[..|h|] == h
    ensures CommencePar(h + q + a, |h|, q) && CommencePar(h + q + a, |h| + |q|, a)
  {
    var d := h + q + a;
    assert d[|h|..|h| + |q|] == q;
    assert d[|h| + |q|..|h| + |q| + |a|] == a;
  }

  /** The written message: its header, then its questions at 12, then its answers. */
  lemma MessageDecoupe(m: DnsMessage)
    ensures HeaderFromBytes(MessageToBytes(m)[..12]) == Success(m.header)
    ensures CommencePar(MessageToBytes(m), 12, QuestionsToBytes(m.questions))
    ensures CommencePar(MessageToBytes(m), 12 + |QuestionsToBytes(m.questions)|, AnswersToBytes(m.answers))
  {
    var h := HeaderToBytes(m.header);
    TroisParties(h, QuestionsToBytes(m.questions), AnswersToBytes(m.answers));
    HeaderRoundTrip(m.header, []);
    assert h + [] == h;
  }

  /** `from_bytes(to_bytes(m))` gives `m` back when its counts match its lists. */
  lemma MessageRoundTrip(m: DnsMessage)
    requires MessageValide(m)
    ensures MessageFromBytes(MessageToBytes(m)) == Success(m)
  {
    var data := MessageToBytes(m);
    var p := 12 + |QuestionsToBytes(m.questions)|;
    MessageDecoupe(m);
    LireQuestionsEncodees(data, 12, m.questions, [], m.header.qdcount, p);
    LireReponsesEncodees(data, p, m.answers, [], m.header.ancount);
    MessageDe(data, m.header, m.questions, p, Success(m.answers));
  }

  // ---------------------------------------------------------------- truncated messages

  /** A cut of `a + b` that ends within `a` is a cut of `a`. */
  lemma CoupeAvant(data: seq<uint8>, pos: nat, a: seq<uint8>, b: seq<uint8>)
    requires pos <= |data| <= pos + |a|
    requires data[pos..] == (a + b)[..|data| - pos]
    ensures data[pos..] == a[..|data| - pos]
  {
  }

  /** A cut of `a + b` that ends within `b`: all of `a`, then a cut of `b`. */
  lemma CoupeDans(data: seq<uint8>, pos: nat, a: seq<uint8>, b: seq<uint8>)
    requires pos + |a| <= |data| <= pos + |a| + |b|
    requires data[pos..] == (a + b)[..|data| - pos]
    ensures CommencePar(data, pos, a) && data[pos + |a|..] == b[..|data| - pos - |a|]
  {
    assert data[pos..pos + |a|] == data[pos..][..|a|];
    assert data[pos + |a|..] == data[pos..][|a|..];
  }

  /**
   * A question cut short fails: no byte left, a cut name, or no room for
   * type and class.
   */
  lemma LireQuestionTronquee(data: seq<uint8>, pos: nat, q: DnsQuestion)
    requires QuestionValide(q)
    requires pos <= |data| < pos + |QuestionToBytes(q)|
    requires data[pos..] == QuestionToBytes(q)[..|data| - pos]
    ensures LireQuestion(data, pos) == Failure(if |data| == pos then QuestionsInsuffisantes
                                               else if |data| < pos + |NomEncode(q.qname)| then NomInsuffisant
                                               else TypeClasseInsuffisant)
  {
    if pos < |data| {
      QuestionForme(q);
      var t := U16ToBytes(q.qtype) + U16ToBytes(q.qclass);
      if |data| < pos + |NomEncode(q.qname)| {
        CoupeAvant(data, pos, NomEncode(q.qname), t);
        NomTronque(data, pos, q.qname);
      } else {
        CoupeDans(data, pos, NomEncode(q.qname), t);
        NomRoundTrip(data, pos, q.qname);
      }
    }
  }

  /** The first question unreadable: the loop fails with its error. */
  lemma LireQuestionsEchec(data: seq<uint8>, pos: nat, n: nat, lues: seq<DnsQuestion>)
    requires n > 0 && LireQuestion(data, pos).Failure?
    ensures LireQuestions(data, pos, n, lues) == Failure(LireQuestion(data, pos).error)
  {
  }

  lemma {:induction false} LireQuestionsTronquees(data: seq<uint8>, pos: nat, qs: seq<DnsQuestion>, lues: seq<DnsQuestion>, n: nat)
    requires QuestionsValides(qs) && n == |qs|
    requires pos <= |data| < pos + |QuestionsToBytes(qs)|
    requires data[pos..] == QuestionsToBytes(qs)[..|data| - pos]
    ensures LireQuestions(data, pos, n, lues).Failure?
    decreases n
  {
    if qs == [] {
      assert false;
    } else {
      var b := QuestionToBytes(qs[0]);
      var suite := QuestionsToBytes(qs[1..]);
      assert QuestionsToBytes(qs) == b + suite;
      if |data| < pos + |b| {
        LireQuestionsCoupeeTete(data, pos, qs[0], b, suite, lues, n);
      } else {
        var p := pos + |b|;
        CoupeDans(data, pos, b, suite);
        LireQuestionsTronquees(data, p, qs[1..], lues + [qs[0]], n - 1);
        LireQuestionEncodee(data, pos, qs[0], p);
        LireQuestionsPas(data, pos, n, lues, qs[0], p);
      }
    }
  }

  /** The question loop fails when the data end inside its first question `q`. */
  lemma LireQuestionsCoupeeTete(data: seq<uint8>, pos: nat, q: DnsQuestion, b: seq<uint8>, suite: seq<uint8>,
                                lues: seq<DnsQuestion>, n: nat)
    requires QuestionValide(q) && b == QuestionToBytes(q) && n > 0
    requires pos <= |data| < pos + |b|
    requires data[pos..] == (b + suite)[..|data| - pos]
    ensures LireQuestions(data, pos, n, lues).Failure?
  {
    CoupeAvant(data, pos, b, suite);
    LireQuestionTronquee(data, pos, q);
    LireQuestionsEchec(data, pos, n, lues);
  }

  /**
   * An answer cut short: a cut name is an error, any other cut (no byte
   * left, no room for the fixed fields or for the data) ends the loop.
   */
  lemma LireReponseTronquee(data: seq<uint8>, pos: nat, a: DnsAnswer)
    requires ReponseValide(a)
    requires pos <= |data| < pos + |AnswerToBytes(a)|
    requires data[pos..] == AnswerToBytes(a)[..|data| - pos]
    ensures LireReponse(data, pos) == if pos < |data| < pos + |NomEncode(a.name)| then Failure(NomInsuffisant) else Success(None)
  {
    if pos < |data| {
      AnswerForme(a);
      var n, f := NomEncode(a.name), Fixe(a) + a.rdata;
      if |data| < pos + |n| {
        LireReponseNomCoupe(data, pos, a.name, n, f);
      } else {
        LireReponseNomEntier(data, pos, a, n, f);
      }
    }
  }

  /** An answer cut inside its name: the name fails to decode. */
  lemma LireReponseNomCoupe(data: seq<uint8>, pos: nat, name: Nom, n: seq<uint8>, f: seq<uint8>)
    requires NomValide(name) && n == NomEncode(name)
    requires pos < |data| < pos + |n|
    requires data[pos..] == (n + f)[..|data| - pos]
    ensures LireReponse(data, pos) == Failure(NomInsuffisant)
  {
    CoupeAvant(data, pos, n, f);
    NomTronque(data, pos, name);
  }

  /** An answer cut after its name: the name decodes, and the loop stops. */
  lemma LireReponseNomEntier(data: seq<uint8>, pos: nat, a: DnsAnswer, n: seq<uint8>, f: seq<uint8>)
    requires ReponseValide(a) && n == NomEncode(a.name) && f == Fixe(a) + a.rdata
    requires pos + |n| <= |data| < pos + |n| + |f|
    requires data[pos..] == (n + f)[..|data| - pos]
    ensures LireReponse(data, pos) == Success(None)
  {
    CoupeDans(data, pos, n, f);
    NomRoundTrip(data, pos, a.name);
    LireReponseCoupeeApresNom(data, pos, a, pos + |n|, f);
  }

  /** An answer whose name is whole but whose fixed fields or data are cut: the loop stops. */
  lemma LireReponseCoupeeApresNom(data: seq<uint8>, pos: nat, a: DnsAnswer, p: nat, f: seq<uint8>)
    requires ReponseValide(a) && f == Fixe(a) + a.rdata
    requires pos < |data| && p <= |data| < p + |f|
    requires data[p..] == f[..|data| - p]
    requires NomDecode(data, pos) == Success((a.name, p))
    ensures LireReponse(data, pos) == Success(None)
  {
    if p + 10 <= |data| {
      CoupeDans(data, p, Fixe(a), a.rdata);
      LireFixe(data, p, a);
    }
  }

  /** Cut inside the questions, a valid message fails to parse, but not for want of a header. */
  lemma MessageTronqueQuestions(m: DnsMessage, c: nat)
    requires MessageValide(m)
    requires 12 <= c < 12 + |QuestionsToBytes(m.questions)|
    ensures MessageFromBytes(MessageToBytes(m)[..c]).Failure?
    ensures MessageFromBytes(MessageToBytes(m)[..c]).error != EnTeteInsuffisant
  {
    var data := MessageToBytes(m)[..c];
    MessageCoupeEnTete(m, c, data);
    MessageCoupeSuite(m, c, data);
    CoupeAvant(data, 12, QuestionsToBytes(m.questions), AnswersToBytes(m.answers));
    LireQuestionsTronquees(data, 12, m.questions, [], m.header.qdcount);
    assert HeaderFromBytes(data[..12]).value == m.header;
    assert MessageFromBytes(data).Failure?;
  }

  /** The answer loop reaching an answer cut short: an error for a cut name, otherwise it stops. */
  lemma LireReponsesCoupees(data: seq<uint8>, debut: nat, a: DnsAnswer, n: nat, lues: seq<DnsAnswer>)
    requires ReponseValide(a) && n > 0
    requires debut <= |data| < debut + |AnswerToBytes(a)|
    requires data[debut..] == AnswerToBytes(a)[..|data| - debut]
    ensures LireReponses(data, debut, n, lues)
            == if debut < |data| < debut + |NomEncode(a.name)| then Failure(NomInsuffisant) else Success(lues)
  {
    LireReponseTronquee(data, debut, a);
    LireReponsesArret(data, debut, n, lues);
  }

  /** The bytes of the first `j` answers: those of the first, then those of the next `j - 1`. */
  lemma AnswersToBytesPrefixe(ans: seq<DnsAnswer>, j: nat)
    requires 0 < j <= |ans|
    ensures AnswersToBytes(ans[..j]) == AnswerToBytes(ans[0]) + AnswersToBytes(ans[1..][..j - 1])
  {
    assert ans[..j][1..] == ans[1..][..j - 1];
  }

  /** The bytes of the answers are those of the first `j`, then those of the rest. */
  lemma {:induction false} AnswersToBytesCoupe(ans: seq<DnsAnswer>, j: nat)
    requires j <= |ans|
    ensures AnswersToBytes(ans) == AnswersToBytes(ans[..j]) + AnswersToBytes(ans[j..])
    decreases j
  {
    if j == 0 {
      assert ans[..0] == [] && ans[0..] == ans;
    } else {
      AnswersToBytesCoupe(ans[1..], j - 1);
      AnswersToBytesPrefixe(ans, j);
      assert ans[1..][j - 1..] == ans[j..];
      Text.Concat3(AnswerToBytes(ans[0]), AnswersToBytes(ans[1..][..j - 1]), AnswersToBytes(ans[j..]));
    }
  }

  /** Valid answers: the first `j` of them, and answer `j` itself. */
  lemma {:induction false} ReponsesValidesPrefixe(ans: seq<DnsAnswer>, j: nat)
    requires ReponsesValides(ans) && j <= |ans|
    ensures ReponsesValides(ans[..j])
    ensures j < |ans| ==> ReponseValide(ans[j])
    decreases j
  {
    if j == 0 {
      assert ans[..0] == [];
    } else {
      ReponsesValidesPrefixe(ans[1..], j - 1);
      assert ans[..j][0] == ans[0] && ans[..j][1..] == ans[1..][..j - 1];
      assert j < |ans| ==> ans[1..][j - 1] == ans[j];
    }
  }

  /** A cut inside answer `j` falls before the end of the message. */
  lemma MessageCoupeeLongueur(m: DnsMessage, c: nat, j: nat, debut: nat)
    requires j < |m.answers|
    requires debut == 12 + |QuestionsToBytes(m.questions)| + |AnswersToBytes(m.answers[..j])|
    requires debut <= c < debut + |AnswerToBytes(m.answers[j])|
    ensures c < |MessageToBytes(m)|
  {
    AnswersToBytesCoupe(m.answers, j);
    AnswersToBytesDe(m.answers, j);
  }

  /** Where the parts of a message cut inside answer `j` sit in the cut bytes `data`. */
  lemma MessageCoupeeOctets(m: DnsMessage, c: nat, j: nat, debut: nat, data: seq<uint8>,
                            qb: seq<uint8>, d: seq<uint8>, x: seq<uint8>, p: nat)
    requires j < |m.answers|
    requires qb == QuestionsToBytes(m.questions) && d == AnswersToBytes(m.answers[..j]) && x == AnswerToBytes(m.answers[j])
    requires p == 12 + |qb| && debut == p + |d| && debut <= c < debut + |x|
    requires c < |MessageToBytes(m)| && data == MessageToBytes(m)[..c]
    ensures |data| == c >= 12 && HeaderFromBytes(data[..12]) == Success(m.header)
    ensures CommencePar(data, 12, qb) && CommencePar(data, p, d)
    ensures data[debut..] == x[..|data| - debut]
  {
    MessageCoupeEnTete(m, c, data);
    MessageCoupeeCorps(m, c, j, debut, data, qb, d, x, p);
  }

  lemma MessageCoupeeCorps(m: DnsMessage, c: nat, j: nat, debut: nat, data: seq<uint8>,
                           qb: seq<uint8>, d: seq<uint8>, x: seq<uint8>, p: nat)
    requires j < |m.answers|
    requires qb == QuestionsToBytes(m.questions) && d == AnswersToBytes(m.answers[..j]) && x == AnswerToBytes(m.answers[j])
    requires p == 12 + |qb| && debut == p + |d| && debut <= c < debut + |x|
    requires c < |MessageToBytes(m)| && data == MessageToBytes(m)[..c]
    ensures CommencePar(data, 12, qb) && CommencePar(data, p, d)
    ensures data[debut..] == x[..|data| - debut]
  {
    var f := AnswersToBytes(m.answers[j + 1..]);
    ReponsesEnTrois(m.answers, j, d, x, f);
    MessageCoupeSuite(m, c, data);
    CoupeEnTrois(data, qb, d, x, f, debut);
  }

  /** The answers' bytes split around the answer `j`. */
  lemma ReponsesEnTrois(ans: seq<DnsAnswer>, j: nat, d: seq<uint8>, x: seq<uint8>, f: seq<uint8>)
    requires j < |ans|
    requires d == AnswersToBytes(ans[..j]) && x == AnswerToBytes(ans[j]) && f == AnswersToBytes(ans[j + 1..])
    ensures AnswersToBytes(ans) == d + (x + f)
  {
    AnswersToBytesCoupe(ans, j);
    AnswersToBytesDe(ans, j);
  }

  /** A cut inside `x` of the bytes `qb`, `d`, `x`, `f` laid out after a 12-byte header. */
  lemma CoupeEnTrois(data: seq<uint8>, qb: seq<uint8>, d: seq<uint8>, x: seq<uint8>, f: seq<uint8>, debut: nat)
    requires debut == 12 + |qb| + |d| && debut <= |data| < debut + |x|
    requires data[12..] == (qb + (d + (x + f)))[..|data| - 12]
    ensures CommencePar(data, 12, qb) && CommencePar(data, 12 + |qb|, d)
    ensures data[debut..] == x[..|data| - debut]
  {
    CoupeDans(data, 12, qb, d + (x + f));
    CoupeDans(data, 12 + |qb|, d, x + f);
    CoupeAvant(data, debut, x, f);
  }

  /** The parse of a message cut inside the answer `a` that follows the answers `deb`. */
  lemma MessageCoupeeLue(data: seq<uint8>, h: DnsHeader, qs: seq<DnsQuestion>, p: nat, deb: seq<DnsAnswer>, a: DnsAnswer,
                         debut: nat, r: Result<seq<DnsAnswer>, ErreurDns>)
    requires |data| >= 12 && HeaderFromBytes(data[..12]) == Success(h)
    requires QuestionsValides(qs) && h.qdcount == |qs|
    requires CommencePar(data, 12, QuestionsToBytes(qs)) && p == 12 + |QuestionsToBytes(qs)|
    requires ReponsesValides(deb) && ReponseValide(a) && |deb| < h.ancount
    requires CommencePar(data, p, AnswersToBytes(deb)) && debut == p + |AnswersToBytes(deb)|
    requires debut <= |data| < debut + |AnswerToBytes(a)| && data[debut..] == AnswerToBytes(a)[..|data| - debut]
    requires r == if debut < |data| < debut + |NomEncode(a.name)| then Failure(NomInsuffisant) else Success(deb)
    ensures MessageFromBytes(data) == if r.Success? then Success(DnsMessage(h, qs, deb)) else Failure(NomInsuffisant)
  {
    LireQuestionsEncodees(data, 12, qs, [], h.qdcount, p);
    LireReponsesJusquaCoupe(data, p, deb, a, h.ancount, debut, r);
    MessageDe(data, h, qs, p, r);
  }

  /** The answer loop over a cut inside `a`, after the complete answers `deb`. */
  lemma LireReponsesJusquaCoupe(data: seq<uint8>, p: nat, deb: seq<DnsAnswer>, a: DnsAnswer, n: nat,
                                debut: nat, r: Result<seq<DnsAnswer>, ErreurDns>)
    requires ReponsesValides(deb) && ReponseValide(a) && |deb| < n
    requires CommencePar(data, p, AnswersToBytes(deb)) && debut == p + |AnswersToBytes(deb)|
    requires debut <= |data| < debut + |AnswerToBytes(a)| && data[debut..] == AnswerToBytes(a)[..|data| - debut]
    requires r == if debut < |data| < debut + |NomEncode(a.name)| then Failure(NomInsuffisant) else Success(deb)
    ensures LireReponses(data, p, n, []) == r
  {
    var reste := n - |deb|;
    assert LireReponses(data, debut, reste, deb) == r by {
      LireReponsesCoupees(data, debut, a, reste, deb);
    }
    assert Enchainees(data, p, deb, debut) by {
      EnchaineesEncodees(data, p, deb, debut);
    }
    assert [] + deb == deb;
    LireReponsesLues(data, p, deb, [], n, debut, reste, deb, r);
  }

  /**
   * Cut inside answer `j`, which starts at `debut`: a cut name is an error,
   * any other cut gives the message with its first `j` answers.
   */
  lemma MessageTronqueReponses(m: DnsMessage, c: nat, j: nat, debut: nat)
    requires MessageValide(m) && j < |m.answers|
    requires debut == 12 + |QuestionsToBytes(m.questions)| + |AnswersToBytes(m.answers[..j])|
    requires debut <= c < debut + |AnswerToBytes(m.answers[j])|
    ensures c < |MessageToBytes(m)|
    ensures c < |MessageToBytes(m)| && MessageFromBytes(MessageToBytes(m)[..c])
            == if debut < c < debut + |NomEncode(m.answers[j].name)| then Failure(NomInsuffisant)
               else Success(m.(answers := m.answers[..j]))
  {
    MessageCoupeeLongueur(m, c, j, debut);
    var data := MessageToBytes(m)[..c];
    var a := m.answers[j];
    var deb := m.answers[..j];
    var r := if debut < c < debut + |NomEncode(a.name)| then Failure(NomInsuffisant) else Success(deb);
    var qb := QuestionsToBytes(m.questions);
    var p := 12 + |qb|;
    ReponsesValidesPrefixe(m.answers, j);
    MessageCoupeeOctets(m, c, j, debut, data, qb, AnswersToBytes(deb), AnswerToBytes(a), p);
    assert |deb| == j;
    MessageCoupeeLue(data, m.header, m.questions, p, deb, a, debut, r);
  }
}
