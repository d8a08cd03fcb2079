/** What the list of messages a finished partition returns amounts to, whatever its order. */
module PartitionMessages {
  import opened Wrappers
  import opened PortGraph
  import opened Denotation
  import opened Partitions
  import opened PartitionSchedulers

  datatype Message = Message(from: Color, to: Color, output: IO)

  ghost function MessageIn(m: PartitionOutput): multiset<Message> {
    match m.to
    case Some(c) => multiset{Message(m.from, c, m.output)}
    case None => multiset{}
  }

  ghost function FinalIn(m: PartitionOutput): multiset<IO> {
    if m.to.None? then multiset{m.output} else multiset{}
  }

  /** The messages to other colors. */
  ghost function MessagesIn(list: seq<PartitionOutput>): multiset<Message> {
    if list == [] then multiset{} else MessagesIn(list[..|list| - 1]) + MessageIn(list[|list| - 1])
  }

  /** The outputs of the whole graph: the messages to no color, each as often as it is in the list. */
  ghost function FinalsIn(list: seq<PartitionOutput>): multiset<IO> {
    if list == [] then multiset{} else FinalsIn(list[..|list| - 1]) + FinalIn(list[|list| - 1])
  }

  ghost function Messages(from: Color, sent: map<Color, IO>): multiset<Message> {
    multiset(set c | c in sent :: Message(from, c, sent[c]))
  }

  /** The values of a map, one per key. */
  ghost function ValuesOf(m: OutputData): multiset<IO>
    decreases |m|
  {
    if m == map[] then multiset{}
    else
      var o :| o in m;
      ValuesOf(m - {o}) + multiset{m[o]}
  }

  lemma Exchange<T>(a: multiset<T>, x: T, y: T)
    ensures a + multiset{x} + multiset{y} == a + multiset{y} + multiset{x}
  {}

  lemma Regroup<T>(a: multiset<T>, b: multiset<T>, c: multiset<T>)
    ensures a + b + c == a + (b + c)
  {}

  lemma MinusSwap(m: OutputData, u: NodeOutput, o: NodeOutput)
    requires u in m && o in m && u != o
    ensures u in m - {o} && o in m - {u} && (m - {o})[u] == m[u] && (m - {u})[o] == m[o]
    ensures m - {u} - {o} == m - {o} - {u}
  {
    assert (m - {u} - {o}).Keys == (m - {o} - {u}).Keys;
  }

  lemma {:induction false} ValuesOfMinus(m: OutputData, o: NodeOutput)
    requires o in m
    ensures ValuesOf(m) == ValuesOf(m - {o}) + multiset{m[o]}
    decreases |m|
  {
    var u :| u in m && ValuesOf(m) == ValuesOf(m - {u}) + multiset{m[u]};
    hide ValuesOf;
    if u != o {
      MinusSwap(m, u, o);
      ValuesOfMinus(m - {u}, o);
      ValuesOfMinus(m - {o}, u);
      Exchange(ValuesOf(m - {u} - {o}), m[o], m[u]);
    }
  }

  lemma UnionMinus(a: OutputData, b: OutputData, o: NodeOutput)
    requires a.Keys !! b.Keys && o in b
    ensures (a + b) - {o} == a + (b - {o}) && o in a + b && (a + b)[o] == b[o] && a.Keys !! (b - {o}).Keys
  {
    assert ((a + b) - {o}).Keys == (a + (b - {o})).Keys;
  }

  lemma {:induction false} ValuesOfUnion(a: OutputData, b: OutputData)
    requires a.Keys !! b.Keys
    ensures ValuesOf(a + b) == ValuesOf(a) + ValuesOf(b)
    decreases |b|
  {
    if b == map[] {
      assert a + b == a;
    } else {
      var o :| o in b;
      hide ValuesOf;
      UnionMinus(a, b, o);
      ValuesOfUnion(a, b - {o});
      ValuesOfMinus(b, o);
      ValuesOfMinus(a + b, o);
      Regroup(ValuesOf(a), ValuesOf(b - {o}), multiset{b[o]});
    }
  }

  lemma {:induction false} ListSplit(a: seq<PartitionOutput>, b: seq<PartitionOutput>)
    ensures MessagesIn(a + b) == MessagesIn(a) + MessagesIn(b) && FinalsIn(a + b) == FinalsIn(a) + FinalsIn(b)
    decreases |b|
  {
    hide MessageIn, FinalIn;
    if b == [] {
      assert a + b == a;
    } else {
      var k := |b| - 1;
      ListSplit(a, b[..k]);
      assert (a + b)[..|a + b| - 1] == a + b[..k];
      Regroup(MessagesIn(a), MessagesIn(b[..k]), MessageIn(b[k]));
      Regroup(FinalsIn(a), FinalsIn(b[..k]), FinalIn(b[k]));
    }
  }

  lemma MessagesMinus(from: Color, sent: map<Color, IO>, c: Color)
    requires c in sent
    ensures Messages(from, sent) == Messages(from, sent - {c}) + multiset{Message(from, c, sent[c])}
  {
    var less := sent - {c};
    var all, rest := set d | d in sent :: Message(from, d, sent[d]), set d | d in less :: Message(from, d, less[d]);
    var m := Message(from, c, sent[c]);
    forall x
      ensures x in all <==> x in rest || x == m
    {
      if x in all && x.to != c {
        assert x.to in less;
      }
    }
    assert all == rest + {m};
    assert m !in rest;
  }

  lemma {:induction false} SentList(from: Color, sent: map<Color, IO>, colors: seq<Color>, list: seq<PartitionOutput>)
    requires Lists(colors, sent.Keys) && |list| == |colors|
    requires forall k :: 0 <= k < |colors| ==> colors[k] in sent && list[k] == PartitionOutput(from, Some(colors[k]), sent[colors[k]])
    ensures MessagesIn(list) == Messages(from, sent) && FinalsIn(list) == multiset{}
    decreases |colors|
  {
    if colors == [] {
      assert sent == map[];
    } else {
      var k := |colors| - 1;
      var c := colors[k];
      ListsMinus(colors, sent.Keys);
      assert (sent - {c}).Keys == sent.Keys - {c};
      assert forall j :: 0 <= j < k ==> colors[..k][j] in sent - {c};
      SentList(from, sent - {c}, colors[..k], list[..k]);
      MessagesMinus(from, sent, c);
    }
  }

  lemma ListsMinus<T(!new)>(s: seq<T>, elements: set<T>)
    requires Lists(s, elements) && s != []
    ensures Lists(s[..|s| - 1], elements - {s[|s| - 1]}) && s[|s| - 1] in elements
  {
    var init, last := s[..|s| - 1], s[|s| - 1];
    assert s == init + [last];
  }

  lemma {:induction false} FinalList(from: Color, m: OutputData, ports: seq<NodeOutput>, list: seq<PartitionOutput>)
    requires Lists(ports, m.Keys) && |list| == |ports|
    requires forall k :: 0 <= k < |ports| ==> ports[k] in m && list[k] == PartitionOutput(from, None, m[ports[k]])
    ensures FinalsIn(list) == ValuesOf(m) && MessagesIn(list) == multiset{}
    decreases |ports|
  {
    if ports == [] {
      assert m == map[];
    } else {
      var k := |ports| - 1;
      var o := ports[k];
      ListsMinus(ports, m.Keys);
      assert (m - {o}).Keys == m.Keys - {o};
      assert forall j :: 0 <= j < k ==> ports[..k][j] in m - {o};
      FinalList(from, m - {o}, ports[..k], list[..k]);
      ValuesOfMinus(m, o);
    }
  }

  /** The list a partition returns holds one message per parent color, and the value of each of its other outputs
      exactly once. */
  lemma AnnouncedExactly(p: Partition, outputs: OutputData, list: seq<PartitionOutput>, colors: seq<Color>, ports: seq<NodeOutput>)
    requires Delivers(p, outputs) && Announces(p, outputs, list, colors, ports)
    ensures MessagesIn(list) == Messages(p.color, Sent(p, outputs))
    ensures FinalsIn(list) == ValuesOf(Finals(p, outputs))
  {
    hide MessagesIn, FinalsIn, ValuesOf, Messages, Lists;
    var a, b := list[..|colors|], list[|colors|..];
    assert list == a + b;
    ListSplit(a, b);
    SentFirst(p, outputs, list, colors, ports);
    FinalsLast(p, outputs, list, colors, ports);
  }

  lemma SentFirst(p: Partition, outputs: OutputData, list: seq<PartitionOutput>, colors: seq<Color>, ports: seq<NodeOutput>)
    requires Delivers(p, outputs) && Announces(p, outputs, list, colors, ports)
    ensures MessagesIn(list[..|colors|]) == Messages(p.color, Sent(p, outputs)) && FinalsIn(list[..|colors|]) == multiset{}
  {
    hide MessagesIn, FinalsIn, Messages;
    assert Sent(p, outputs).Keys == p.parents.Keys;
    assert forall k :: 0 <= k < |colors| ==> colors[k] in p.parents.Keys;
    SentList(p.color, Sent(p, outputs), colors, list[..|colors|]);
  }

  lemma FinalsLast(p: Partition, outputs: OutputData, list: seq<PartitionOutput>, colors: seq<Color>, ports: seq<NodeOutput>)
    requires Delivers(p, outputs) && Announces(p, outputs, list, colors, ports)
    ensures FinalsIn(list[|colors|..]) == ValuesOf(Finals(p, outputs)) && MessagesIn(list[|colors|..]) == multiset{}
  {
    hide MessagesIn, FinalsIn, ValuesOf;
    assert forall k :: 0 <= k < |ports| ==> ports[k] in Finals(p, outputs).Keys;
    FinalList(p.color, Finals(p, outputs), ports, list[|colors|..]);
  }

  lemma {:induction false} ListOf<T(!new)>(elements: set<T>) returns (s: seq<T>)
    ensures Lists(s, elements)
    decreases |elements|
  {
    if elements == {} {
      s := [];
    } else {
      var t :| t in elements;
      var rest := ListOf(elements - {t});
      s := rest + [t];
      ListsSnoc(rest, elements - {t}, t);
      assert elements - {t} + {t} == elements;
    }
  }

  ghost predicate Announced(p: Partition, outputs: OutputData, list: seq<PartitionOutput>)
    requires Delivers(p, outputs)
  {
    exists colors, ports :: Announces(p, outputs, list, colors, ports)
  }

  /** Such a list exists. */
  lemma CanAnnounce(p: Partition, outputs: OutputData) returns (list: seq<PartitionOutput>)
    requires Delivers(p, outputs)
    ensures Announced(p, outputs, list)
  {
    var colors := ListOf(p.parents.Keys);
    var ports := ListOf(Finals(p, outputs).Keys);
    assert forall k :: 0 <= k < |colors| ==> colors[k] in p.parents;
    assert forall k :: 0 <= k < |ports| ==> ports[k] in Finals(p, outputs);
    var sent := Sent(p, outputs);
    var a := seq(|colors|, k requires 0 <= k < |colors| => PartitionOutput(p.color, Some(colors[k]), sent[colors[k]]));
    var b := seq(|ports|, k requires 0 <= k < |ports| => PartitionOutput(p.color, None, outputs[ports[k]]));
    list := a + b;
    assert Announces(p, outputs, list, colors, ports);
  }
}
