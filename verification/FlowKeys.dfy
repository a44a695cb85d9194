/**
The text that identifies a connection, and taking it apart again.
*/
module FlowKeys {
  import opened Text

  type Port = n: nat | n < 65536

  /** A tracked connection; addresses are as printed. */
  datatype CtInfo = CtInfo(
    sip: string, sport: Port, dip: string, dport: Port, proto: string, service: string,
    state: string, act: string)

  /** The fields of a key as text. */
  datatype Fields = Fields(sip: string, sport: string, dip: string, dport: string, proto: string, service: string)

  const NO_FIELDS := Fields("", "", "", "", "", "")

  lemma FiveDigits()
    ensures Pow10(5) == 100000
  {
    assert Pow10(2) == 100 && Pow10(3) == 1000 && Pow10(4) == 10000;
  }

  function PortText(p: Port): (s: string)
    ensures |s| == 5 && AllDigits(s)
  {
    FiveDigits();
    Padded(p, 5)
  }

  function Parts(c: CtInfo): seq<string> {
    [c.sip, PortText(c.sport), c.dip, PortText(c.dport), c.proto, c.service]
  }

  function FieldsOf(c: CtInfo): Fields { Fields(c.sip, PortText(c.sport), c.dip, PortText(c.dport), c.proto, c.service) }

  function MakeConntrackKey(c: CtInfo): string { Join(Parts(c), '|') }

  function ParseConntrackKey(key: string): Fields {
    var p := Split(key, '|');
    if |p| == 6 then Fields(p[0], p[1], p[2], p[3], p[4], p[5]) else NO_FIELDS
  }

  /** No text field of the connection holds the separator. */
  predicate Separable(c: CtInfo) { Free(c.sip, '|') && Free(c.dip, '|') && Free(c.proto, '|') && Free(c.service, '|') }

  lemma SeparableParts(c: CtInfo)
    ensures Separable(c) <==> forall k :: 0 <= k < |Parts(c)| ==> Free(Parts(c)[k], '|')
  {
    var p := Parts(c);
    assert Free(p[1], '|') && Free(p[3], '|');
    assert p[0] == c.sip && p[2] == c.dip && p[4] == c.proto && p[5] == c.service;
  }

  /** Parsing gives back the fields exactly if none holds the separator; otherwise all come out empty. */
  lemma ParseInvertsMake(c: CtInfo)
    ensures ParseConntrackKey(MakeConntrackKey(c)) == FieldsOf(c) <==> Separable(c)
    ensures !Separable(c) ==> ParseConntrackKey(MakeConntrackKey(c)) == NO_FIELDS
  {
    SeparableParts(c);
    CountJoin(Parts(c), '|');
    if Separable(c) {
      SplitJoin(Parts(c), '|');
    } else {
      assert |PortText(c.sport)| == 5;
    }
  }

  /** Separable connections with the same key have the same addresses, ports, protocol and service. */
  lemma KeyIdentifiesConnection(c: CtInfo, d: CtInfo)
    requires Separable(c) && Separable(d) && MakeConntrackKey(c) == MakeConntrackKey(d)
    ensures c.(state := d.state, act := d.act) == d
  {
    ParseInvertsMake(c);
    ParseInvertsMake(d);
    FiveDigits();
    NumberPadded(c.sport, 5);
    NumberPadded(d.sport, 5);
    NumberPadded(c.dport, 5);
    NumberPadded(d.dport, 5);
  }
}
