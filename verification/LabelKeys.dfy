/**
The text under which a labelled metric is stored: its name and its labels in
whatever order the map yields them.
*/
module LabelKeys {
  import opened Common
  import opened Text

  type Labels = map<string, string>

  predicate Covers(order: seq<string>, labels: Labels) { forall k :: k in order ==> k in labels }

  function Piece(k: string, v: string): string { k + ['='] + v }

  /** generateLabelsKey, with the order made explicit. */
  function LabelsKey(name: string, labels: Labels, order: seq<string>): string
    requires Covers(order, labels)
  {
    if order == [] then name
    else
      var k := order[|order| - 1];
      LabelsKey(name, labels, order[..|order| - 1]) + ['|'] + Piece(k, labels[k])
  }

  function Parts(name: string, labels: Labels, order: seq<string>): (r: seq<string>)
    requires Covers(order, labels)
    ensures |r| == |order| + 1
  {
    [name] + seq(|order|, i requires 0 <= i < |order| => Piece(order[i], labels[order[i]]))
  }

  lemma {:induction false} JoinSnoc(parts: seq<string>, p: string)
    requires parts != []
    ensures Join(parts + [p], '|') == Join(parts, '|') + ['|'] + p
  {
    assert (parts + [p])[1..] == parts[1..] + [p];
    if |parts| > 1 {
      JoinSnoc(parts[1..], p);
    }
  }

  lemma {:induction false} KeyIsJoin(name: string, labels: Labels, order: seq<string>)
    requires Covers(order, labels)
    ensures LabelsKey(name, labels, order) == Join(Parts(name, labels, order), '|')
  {
    if order == [] {
      assert Parts(name, labels, order) == [name];
    } else {
      var init, k := order[..|order| - 1], order[|order| - 1];
      KeyIsJoin(name, labels, init);
      assert Parts(name, labels, order) == Parts(name, labels, init) + [Piece(k, labels[k])];
      JoinSnoc(Parts(name, labels, init), Piece(k, labels[k]));
    }
  }

  /** Names and labels free of the separators that matter to them. */
  predicate Clean(name: string, labels: Labels) {
    && Free(name, '|')
    && forall k :: k in labels ==> Free(k, '|') && Free(k, '=') && Free(labels[k], '|')
  }

  lemma PieceInjective(k1: string, v1: string, k2: string, v2: string)
    requires Free(k1, '=') && Free(k2, '=') && Piece(k1, v1) == Piece(k2, v2)
    ensures k1 == k2 && v1 == v2
  {
    SplitHead(k1, v1, '=');
    SplitHead(k2, v2, '=');
    assert ([k1] + Split(v1, '='))[0] == ([k2] + Split(v2, '='))[0];
    assert v1 == Piece(k1, v1)[|k1| + 1..] && v2 == Piece(k2, v2)[|k2| + 1..];
  }

  lemma SplitsIntoParts(name: string, labels: Labels, order: seq<string>)
    requires Clean(name, labels) && Covers(order, labels)
    ensures Split(LabelsKey(name, labels, order), '|') == Parts(name, labels, order)
  {
    KeyIsJoin(name, labels, order);
    var parts := Parts(name, labels, order);
    forall i | 0 <= i < |parts| ensures Free(parts[i], '|') {
      if i > 0 {
        assert order[i - 1] in order;
      }
    }
    SplitJoin(parts, '|');
  }

  /** Clean metrics stored under the same text have the same name and the same labels. */
  lemma KeyDeterminesLabels(n1: string, l1: Labels, o1: seq<string>, n2: string, l2: Labels, o2: seq<string>)
    requires Clean(n1, l1) && Clean(n2, l2) && Enumerates(o1, l1.Keys) && Enumerates(o2, l2.Keys)
    requires LabelsKey(n1, l1, o1) == LabelsKey(n2, l2, o2)
    ensures n1 == n2 && l1 == l2
  {
    SplitsIntoParts(n1, l1, o1);
    SplitsIntoParts(n2, l2, o2);
    var p1, p2 := Parts(n1, l1, o1), Parts(n2, l2, o2);
    assert p1[0] == p2[0];
    assert |o1| == |o2|;
    forall i | 0 <= i < |o1| ensures o1[i] == o2[i] && l1[o1[i]] == l2[o2[i]] {
      assert o1[i] in o1 && o2[i] in o2;
      assert p1[i + 1] == p2[i + 1];
      PieceInjective(o1[i], l1[o1[i]], o2[i], l2[o2[i]]);
    }
    assert o1 == o2;
    assert forall k :: k in l1 <==> k in l2;
  }

  /** The text of a metric with one or two labels. */
  lemma KeyText(name: string, labels: Labels, j: string, k: string)
    requires j in labels && k in labels
    ensures LabelsKey(name, labels, []) == name
    ensures LabelsKey(name, labels, [k]) == name + "|" + (k + "=" + labels[k])
    ensures LabelsKey(name, labels, [j, k]) == name + "|" + (j + "=" + labels[j]) + "|" + (k + "=" + labels[k])
  {
    assert [k][..0] == [] && [j, k][..1] == [j] && [j][..0] == [];
  }

  /** A separator inside a label value makes different labels share a text. */
  lemma SeparatorConfusesLabels(name: string)
    ensures var l1: Labels, l2: Labels := map["dip" := "1|sip=2"], map["dip" := "1", "sip" := "2"];
            LabelsKey(name, l1, ["dip"]) == LabelsKey(name, l2, ["dip", "sip"]) && l1 != l2
  {
    var l1: Labels, l2: Labels := map["dip" := "1|sip=2"], map["dip" := "1", "sip" := "2"];
    assert ["dip"][..0] == [] && ["dip", "sip"][..1] == ["dip"];
    assert LabelsKey(name, l2, ["dip"]) == name + "|" + Piece("dip", "1");
    assert Piece("dip", "1|sip=2") == Piece("dip", "1") + "|" + Piece("sip", "2");
    assert "sip" in l2 && "sip" !in l1;
  }

  predicate HasPrefix(s: string, p: string) { p <= s }

  /** A prefix without separators is one of the text exactly if it is one of the name. */
  lemma {:induction false} PrefixIsOfName(name: string, labels: Labels, order: seq<string>, p: string)
    requires Covers(order, labels) && Free(p, '|')
    ensures HasPrefix(LabelsKey(name, labels, order), p) <==> HasPrefix(name, p)
  {
    if order != [] {
      var init, k := order[..|order| - 1], order[|order| - 1];
      PrefixIsOfName(name, labels, init, p);
      PrefixBeforeBar(LabelsKey(name, labels, init), Piece(k, labels[k]), p);
    }
  }

  lemma PrefixBeforeBar(s: string, t: string, p: string)
    requires Free(p, '|')
    ensures p <= s + ['|'] + t <==> p <= s
  {
    var all := s + ['|'] + t;
    assert all[|s|] == '|' && forall i :: 0 <= i < |s| ==> all[i] == s[i];
    assert p <= all <==> |p| <= |all| && forall i :: 0 <= i < |p| ==> p[i] == all[i];
    assert p <= s <==> |p| <= |s| && forall i :: 0 <= i < |p| ==> p[i] == s[i];
  }
}
