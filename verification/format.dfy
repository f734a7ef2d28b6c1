/**
 The text the generator prints (recipe_engine/depgraph.py, lines 14-21, 79,
 99, 109-110, 115-116, 118): each line record becomes one `print` call, which
 appends a newline to its argument.
 */
module Printing {
  import opened Text
  import opened Rendering

  /** `_GRAPH_HEADER`, lines 14-18. */
  const GraphHeader: string := "strict digraph {\n  concentrate = true;\n  ranksep = 2;\n  nodesep = 0.25;\n"

  /** `_GRAPH_FOOTER`, lines 20-21. */
  const GraphFooter: string := "}\n"

  /** The separator of the module and recipe lists of a cluster. */
  const ListSeparator: string := "; "

  /** `sep.join(xs)`. */
  function Join(xs: seq<string>, sep: string): string {
    if xs == [] then ""
    else if |xs| == 1 then xs[0]
    else xs[0] + sep + Join(xs[1..], sep)
  }

  /** `'"%s"' % s`. */
  function Quote(s: string): (r: string)
    ensures |r| == |s| + 2 && r[0] == '"' && r[|r| - 1] == '"' && r[1..|r| - 1] == s
  {
    "\"" + s + "\""
  }

  /** The quoted recipe labels of the recipe cluster (line 113). */
  function QuoteAll(xs: seq<string>): (r: seq<string>)
    ensures |r| == |xs| && forall i :: 0 <= i < |xs| ==> r[i] == Quote(xs[i])
  {
    if xs == [] then [] else [Quote(xs[0])] + QuoteAll(xs[1..])
  }

  /** Records inside the graph body are indented by two spaces. */
  const Indent: string := "  "

  /** An edge, line 99: both ends in quotes. */
  function EdgeText(a: string, b: string): (r: string)
    ensures |r| > 0 && r[0] == '"'
  {
    Quote(a) + " -> " + Quote(b)
  }

  /** A cluster, lines 109-110 and 115: a `subgraph` whose name starts with
      `cluster_`, with a title and the joined items, closed after a final `;`. */
  function ClusterText(name: string, title: string, items: string): (r: string)
    ensures "subgraph \"cluster_" <= r
    ensures |r| >= 3 && r[|r| - 3..] == "; }"
  {
    "subgraph " + Quote("cluster_" + name) + " { label=" + Quote(title) + "; " + items + "; }"
  }

  /** The text of a record inside the graph body, after its indentation. */
  function Entry(l: Line): (r: string)
    requires !l.Header? && !l.Footer?
    ensures |r| > 0 && r[0] != ' '
  {
    match l
    case EdgeLine(a, b) => EdgeText(a, b)
    case ClusterLine(p, mods) => ClusterText(p, p, Join(mods, ListSeparator))
    case RecipeClusterLine(labels) => ClusterText("recipes", "recipes", Join(QuoteAll(labels), ListSeparator))
  }

  /** The argument of the `print` call that emits a record: the header and
      footer constants, or an indented entry. */
  function Format(l: Line): (r: string)
    ensures !l.Header? && !l.Footer? ==> |r| > |Indent| && r[..|Indent|] == Indent && r[|Indent|] != ' '
  {
    match l
    case Header => GraphHeader
    case Footer => GraphFooter
    case _ => Indent + Entry(l)
  }

  /** The `print` arguments of a sequence of records. */
  function FormatAll(lines: seq<Line>): (r: seq<string>)
    ensures |r| == |lines| && forall i :: 0 <= i < |lines| ==> r[i] == Format(lines[i])
  {
    if lines == [] then [] else [Format(lines[0])] + FormatAll(lines[1..])
  }

  /** What a sequence of `print` calls writes: each argument and a newline. */
  function Emit(texts: seq<string>): string {
    if texts == [] then "" else texts[0] + "\n" + Emit(texts[1..])
  }

  /** Everything printed for a sequence of records. */
  function Print(lines: seq<Line>): string {
    Emit(FormatAll(lines))
  }

  /** An occurrence survives surrounding text. */
  lemma OccursInContext(f: string, a: string, s: string, b: string)
    requires OccursIn(f, s)
    ensures OccursIn(f, a + s + b)
  {
    var k :| 0 <= k <= |s| && f <= s[k..];
    var t := a + s + b;
    assert t[|a| + k..][..|f|] == s[k..][..|f|];
  }

  /** Every listed item is printed. */
  lemma {:induction false} JoinMentions(xs: seq<string>, sep: string)
    ensures forall x :: x in xs ==> OccursIn(x, Join(xs, sep))
  {
    if |xs| == 1 {
      assert xs[0][0..] == xs[0];
    } else if |xs| > 1 {
      JoinMentions(xs[1..], sep);
      forall x | x in xs ensures OccursIn(x, Join(xs, sep)) {
        if x == xs[0] {
          assert OccursIn(x, x) by { assert x[0..] == x; }
          OccursInContext(x, "", x, sep + Join(xs[1..], sep));
          assert "" + x + (sep + Join(xs[1..], sep)) == Join(xs, sep);
        } else {
          OccursInContext(x, xs[0] + sep, Join(xs[1..], sep), "");
          assert xs[0] + sep + Join(xs[1..], sep) + "" == Join(xs, sep);
        }
      }
    }
  }

  /** A text occurs at the start of any extension of it. */
  lemma OccursAtStart(f: string, t: string)
    ensures OccursIn(f, f + t)
  {
    assert (f + t)[0..] == f + t;
  }

  /** A text occurs at the end of anything followed by it. */
  lemma OccursAtEnd(t: string, f: string)
    ensures OccursIn(f, t + f)
  {
    assert (t + f)[|t|..] == f;
  }

  /** An edge text contains both ends, each in quotes. */
  lemma EdgeTextMentions(a: string, b: string)
    ensures OccursIn(Quote(a), EdgeText(a, b))
    ensures OccursIn(Quote(b), EdgeText(a, b))
  {
    var qa, qb := Quote(a), Quote(b);
    assert EdgeText(a, b) == qa + (" -> " + qb) == (qa + " -> ") + qb;
    OccursAtStart(qa, " -> " + qb);
    OccursAtEnd(qa + " -> ", qb);
  }

  /** Both ends of an edge are printed, each in quotes. */
  lemma EdgeMentions(a: string, b: string)
    ensures OccursIn(Quote(a), Format(EdgeLine(a, b)))
    ensures OccursIn(Quote(b), Format(EdgeLine(a, b)))
  {
    assert Format(EdgeLine(a, b)) == Indent + EdgeText(a, b);
    EdgeTextMentions(a, b);
    IndentedMentions(Quote(a), EdgeText(a, b));
    IndentedMentions(Quote(b), EdgeText(a, b));
  }

  /** A cluster text names its cluster in quotes and contains its items. */
  lemma ClusterTextMentions(name: string, title: string, items: string)
    ensures OccursIn(Quote("cluster_" + name), ClusterText(name, title, items))
    ensures forall x :: OccursIn(x, items) ==> OccursIn(x, ClusterText(name, title, items))
  {
    var head := "subgraph " + Quote("cluster_" + name) + " { label=" + Quote(title) + "; ";
    var r := ClusterText(name, title, items);
    assert r == head + items + "; }";
    assert r[9..][..|Quote("cluster_" + name)|] == Quote("cluster_" + name);
    forall x | OccursIn(x, items) ensures OccursIn(x, r) {
      OccursInContext(x, head, items, "; }");
    }
  }

  /** What occurs in an entry occurs in its indented line. */
  lemma IndentedMentions(x: string, e: string)
    requires OccursIn(x, e)
    ensures OccursIn(x, Indent + e)
  {
    OccursInContext(x, Indent, e, "");
    assert Indent + e + "" == Indent + e;
  }

  /** A package cluster names its package and lists every one of its modules. */
  lemma ClusterMentions(p: string, mods: seq<string>)
    ensures OccursIn(Quote("cluster_" + p), Format(ClusterLine(p, mods)))
    ensures forall m :: m in mods ==> OccursIn(m, Format(ClusterLine(p, mods)))
  {
    var items := Join(mods, ListSeparator);
    var e := ClusterText(p, p, items);
    assert Format(ClusterLine(p, mods)) == Indent + e;
    ClusterTextMentions(p, p, items);
    IndentedMentions(Quote("cluster_" + p), e);
    JoinMentions(mods, ListSeparator);
    forall m | m in mods ensures OccursIn(m, Indent + e) {
      IndentedMentions(m, e);
    }
  }

  /** The recipe cluster lists every recipe label, in quotes. */
  lemma RecipeClusterMentions(labels: seq<string>)
    ensures forall x :: x in labels ==> OccursIn(Quote(x), Format(RecipeClusterLine(labels)))
  {
    var items := Join(QuoteAll(labels), ListSeparator);
    var e := ClusterText("recipes", "recipes", items);
    assert Format(RecipeClusterLine(labels)) == Indent + e;
    ClusterTextMentions("recipes", "recipes", items);
    JoinMentions(QuoteAll(labels), ListSeparator);
    forall x | x in labels ensures OccursIn(Quote(x), Indent + e) {
      var i :| 0 <= i < |labels| && labels[i] == x;
      assert QuoteAll(labels)[i] == Quote(x);
      IndentedMentions(Quote(x), e);
    }
  }

  /** One more `print` call appends its argument and a newline. */
  lemma {:induction false} EmitSnoc(texts: seq<string>, t: string)
    ensures Emit(texts + [t]) == Emit(texts) + t + "\n"
  {
    if texts != [] {
      assert (texts + [t])[0] == texts[0];
      assert (texts + [t])[1..] == texts[1..] + [t];
      EmitSnoc(texts[1..], t);
    } else {
      assert [t][1..] == [];
    }
  }

  /** A sequence of `print` arguments writes its first argument, the middle
      ones and its last argument, each followed by a newline. */
  lemma EmitFramed(texts: seq<string>)
    requires |texts| >= 2
    ensures Emit(texts) == texts[0] + "\n" + Emit(texts[1..|texts| - 1]) + texts[|texts| - 1] + "\n"
  {
    var init, last, mid := texts[..|texts| - 1], texts[|texts| - 1], texts[1..|texts| - 1];
    assert init[0] == texts[0] && init[1..] == mid;
    assert Emit(init) == texts[0] + "\n" + Emit(mid);
    assert texts == init + [last];
    EmitSnoc(init, last);
  }

  /** The printed text of a rendered graph starts with the header and ends with
      the footer (each followed by the newline `print` adds). */
  lemma PrintFramed(lines: seq<Line>)
    requires |lines| >= 2 && lines[0] == Header && lines[|lines| - 1] == Footer
    ensures GraphHeader + "\n" <= Print(lines)
    ensures exists body :: Print(lines) == GraphHeader + "\n" + body + GraphFooter + "\n"
  {
    var texts := FormatAll(lines);
    var h, f := texts[0], texts[|texts| - 1];
    EmitFramed(texts);
    var body := Emit(texts[1..|texts| - 1]);
    assert Print(lines) == (h + "\n") + (body + f + "\n");
    assert h == GraphHeader && f == GraphFooter;
  }
}
