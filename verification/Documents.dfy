/** The canonical text that is embedded for a product, and its digest. */
module Documents {
  import opened Common

  /** The ASCII characters that strip() removes. */
  predicate IsSpace(c: char) { c == ' ' || 9 as char <= c <= 13 as char || 28 as char <= c <= 31 as char }

  function StripLeft(s: string): (r: string)
    ensures r == [] || !IsSpace(r[0])
  {
    if s != [] && IsSpace(s[0]) then StripLeft(s[1..]) else s
  }

  function StripRight(s: string): (r: string)
    ensures r <= s
    ensures r == [] || !IsSpace(r[|r| - 1])
  {
    if s != [] && IsSpace(s[|s| - 1]) then StripRight(s[..|s| - 1]) else s
  }

  function Strip(s: string): string { StripRight(StripLeft(s)) }

  /** Every CR LF pair becomes a single LF. */
  function ReplaceCrLf(s: string): string {
    if s == [] then []
    else if |s| >= 2 && s[0] == '\r' && s[1] == '\n' then ['\n'] + ReplaceCrLf(s[2..])
    else [s[0]] + ReplaceCrLf(s[1..])
  }

  /** Every CR becomes a LF. */
  function ReplaceCr(s: string): string {
    seq(|s|, i requires 0 <= i < |s| => if s[i] == '\r' then '\n' else s[i])
  }

  function BuildProductIndexText(name: string, category: string, description: string, material: Option<string>): string {
    ReplaceCr(ReplaceCrLf(
      "Name: " + Strip(name) + "\n" +
      "Category: " + Strip(category) + "\n" +
      "Description: " + Strip(description) + "\n" +
      "Material: " + Strip(if material.Some? then material.value else "")))
  }

  /** An idealised SHA-256: different texts have different digests. */
  datatype Digest = Sha256(text: string)

  // ----- properties

  predicate OnlySpaces(s: string) { forall c | c in s :: IsSpace(c) }

  lemma {:induction false} StripLeftSplits(s: string) returns (a: string)
    ensures s == a + StripLeft(s) && OnlySpaces(a)
  {
    if s != [] && IsSpace(s[0]) {
      var rest := StripLeftSplits(s[1..]);
      a := [s[0]] + rest;
    } else {
      a := [];
    }
  }

  lemma {:induction false} StripRightSplits(s: string) returns (b: string)
    ensures s == StripRight(s) + b && OnlySpaces(b)
  {
    if s != [] && IsSpace(s[|s| - 1]) {
      var rest := StripRightSplits(s[..|s| - 1]);
      b := rest + [s[|s| - 1]];
    } else {
      b := [];
    }
  }

  /** Stripping removes white space at both ends, all of it, and nothing else. */
  ghost predicate StrippedTo(s: string, t: string) {
    && (exists a, b :: s == a + t + b && OnlySpaces(a) && OnlySpaces(b))
    && (t != [] ==> !IsSpace(t[0]) && !IsSpace(t[|t| - 1]))
  }

  lemma StripMeans(s: string)
    ensures StrippedTo(s, Strip(s))
  {
    var l := StripLeft(s);
    var a := StripLeftSplits(s);
    var b := StripRightSplits(l);
    Regroup(a, Strip(s), b);
    assert Strip(s) != [] ==> Strip(s)[0] == l[0];
  }

  lemma Regroup(a: string, b: string, c: string)
    ensures a + (b + c) == a + b + c
  {
  }

  lemma StripIdempotent(s: string)
    ensures Strip(Strip(s)) == Strip(s)
  {
    var t := StripLeft(s);
    var u := StripRight(t);
    assert u != [] ==> u[0] == t[0];
    assert StripLeft(u) == u;
  }

  /** The document depends only on the stripped fields, and a missing material counts as blank. */
  lemma DocumentIgnoresOuterWhitespace(name: string, category: string, description: string, material: Option<string>)
    ensures BuildProductIndexText(name, category, description, material)
         == BuildProductIndexText(Strip(name), Strip(category), Strip(description),
                                  Some(Strip(if material.Some? then material.value else "")))
  {
    StripIdempotent(name);
    StripIdempotent(category);
    StripIdempotent(description);
    StripIdempotent(if material.Some? then material.value else "");
  }

  /** One line break per CRLF, lone CR or LF, in one left-to-right pass. */
  function NormalizeNewlines(s: string): string {
    if s == [] then []
    else if |s| >= 2 && s[0] == '\r' && s[1] == '\n' then ['\n'] + NormalizeNewlines(s[2..])
    else if s[0] == '\r' then ['\n'] + NormalizeNewlines(s[1..])
    else [s[0]] + NormalizeNewlines(s[1..])
  }

  lemma ReplaceCrCons(c: char, s: string)
    ensures ReplaceCr([c] + s) == [if c == '\r' then '\n' else c] + ReplaceCr(s)
  {
  }

  /** The two replacements in sequence are one newline normalisation; no CR survives. */
  lemma {:induction false} ReplacementsNormalize(s: string)
    ensures ReplaceCr(ReplaceCrLf(s)) == NormalizeNewlines(s)
    ensures '\r' !in ReplaceCr(ReplaceCrLf(s))
    decreases |s|
  {
    if s != [] {
      var k := if |s| >= 2 && s[0] == '\r' && s[1] == '\n' then 2 else 1;
      var c := if k == 2 then '\n' else s[0];
      ReplacementsNormalize(s[k..]);
      assert ReplaceCrLf(s) == [c] + ReplaceCrLf(s[k..]);
      ReplaceCrCons(c, ReplaceCrLf(s[k..]));
    }
  }

  // ----- the document, field by field

  lemma {:induction false} NormalizeAppend(a: string, b: string)
    requires a == [] || b == [] || a[|a| - 1] != '\r' || b[0] != '\n'
    ensures NormalizeNewlines(a + b) == NormalizeNewlines(a) + NormalizeNewlines(b)
    decreases |a|
  {
    if a == [] {
      assert a + b == b;
    } else {
      var k := LineBreakSize(a);
      LineBreakOfAppend(a, b);
      NormalizeAppend(a[k..], b);
      NormalizeNext(a);
      NormalizeNext(a + b);
    }
  }

  /** How many characters the normalisation takes at once. */
  function LineBreakSize(s: string): nat { if |s| >= 2 && s[0] == '\r' && s[1] == '\n' then 2 else 1 }

  lemma NormalizeNext(s: string)
    requires s != []
    ensures LineBreakSize(s) <= |s|
    ensures NormalizeNewlines(s) == [if s[0] == '\r' then '\n' else s[0]] + NormalizeNewlines(s[LineBreakSize(s)..])
  {
  }

  lemma LineBreakOfAppend(a: string, b: string)
    requires a != [] && (b == [] || a[|a| - 1] != '\r' || b[0] != '\n')
    ensures LineBreakSize(a + b) == LineBreakSize(a) <= |a|
    ensures (a + b)[0] == a[0] && (a + b)[LineBreakSize(a)..] == a[LineBreakSize(a)..] + b
  {
  }

  lemma {:induction false} PlainIsNormal(s: string)
    requires '\r' !in s
    ensures NormalizeNewlines(s) == s
  {
    if s != [] { PlainIsNormal(s[1..]); }
  }

  function MaterialText(material: Option<string>): string { if material.Some? then material.value else "" }

  lemma LineNormalizes(head: string, field: string, rest: string)
    requires '\r' !in head && head != []
    ensures NormalizeNewlines(head + Strip(field) + "\n" + rest)
         == head + NormalizeNewlines(Strip(field)) + "\n" + NormalizeNewlines(rest)
  {
    StripMeans(field);
    BreakNormalizes(Strip(field), rest);
    HeadNormalizes(head, Strip(field) + ("\n" + rest));
    Regroup(head, Strip(field), "\n" + rest);
    Regroup(head + Strip(field), "\n", rest);
    Regroup(head, NormalizeNewlines(Strip(field)), "\n" + NormalizeNewlines(rest));
    Regroup(head + NormalizeNewlines(Strip(field)), "\n", NormalizeNewlines(rest));
  }

  lemma HeadNormalizes(head: string, text: string)
    requires '\r' !in head && head != []
    ensures NormalizeNewlines(head + text) == head + NormalizeNewlines(text)
  {
    PlainIsNormal(head);
    assert head[|head| - 1] in head;
    NormalizeAppend(head, text);
  }

  lemma BreakNormalizes(field: string, rest: string)
    requires field == [] || field[|field| - 1] != '\r'
    ensures NormalizeNewlines(field + ("\n" + rest)) == NormalizeNewlines(field) + ("\n" + NormalizeNewlines(rest))
  {
    HeadNormalizes("\n", rest);
    NormalizeAppend(field, "\n" + rest);
  }

  /**
   The document is four labelled lines, each field stripped and with its line breaks normalised by
   itself: the replacements over the whole text never join a field with the line break after it.
   */
  lemma DocumentIsFourFields(name: string, category: string, description: string, material: Option<string>)
    ensures BuildProductIndexText(name, category, description, material) ==
            "Name: " + NormalizeNewlines(Strip(name)) + "\n" + (
            "Category: " + NormalizeNewlines(Strip(category)) + "\n" + (
            "Description: " + NormalizeNewlines(Strip(description)) + "\n" + (
            "Material: " + NormalizeNewlines(Strip(MaterialText(material))))))
  {
    var m := "Material: " + Strip(MaterialText(material));
    var d := "Description: " + Strip(description) + "\n" + m;
    var c := "Category: " + Strip(category) + "\n" + d;
    var n := "Name: " + Strip(name) + "\n" + c;
    FourLines("Name: ", Strip(name), "Category: ", Strip(category), "Description: ", Strip(description),
              "Material: ", Strip(MaterialText(material)));
    ReplacementsNormalize(n);
    LineNormalizes("Name: ", name, c);
    LineNormalizes("Category: ", category, d);
    LineNormalizes("Description: ", description, m);
    HeadNormalizes("Material: ", Strip(MaterialText(material)));
  }

  lemma FourLines(h: string, n: string, i: string, c: string, j: string, d: string, k: string, m: string)
    ensures h + n + "\n" + i + c + "\n" + j + d + "\n" + k + m == h + n + "\n" + (i + c + "\n" + (j + d + "\n" + (k + m)))
  {
    var a := h + n + "\n";
    Regroup(a + i + c + "\n" + j + d + "\n", k, m);
    TwoLines(a + i + c + "\n", j, d, k + m);
    TwoLines(a, i, c, j + d + "\n" + (k + m));
  }

  lemma TwoLines(a: string, i: string, c: string, rest: string)
    ensures a + i + c + "\n" + rest == a + (i + c + "\n" + rest)
  {
    Regroup(a, i, c);
    Regroup(a, i + c, "\n");
    Regroup(a, i + c + "\n", rest);
  }

  predicate OneLine(s: string) { '\n' !in s && '\r' !in s }

  lemma FirstLine(a: string, x: string, b: string, y: string)
    requires '\n' !in a && '\n' !in b && a + "\n" + x == b + "\n" + y
    ensures a == b && x == y
  {
    var s, t := a + "\n" + x, b + "\n" + y;
    BreakAt(a, x);
    BreakAt(b, y);
    assert s[..|a|] == a && t[..|b|] == b;
    assert s[|a| + 1..] == x && t[|b| + 1..] == y;
  }

  lemma BreakAt(a: string, x: string)
    requires '\n' !in a
    ensures (a + "\n" + x)[|a|] == '\n' && forall i | 0 <= i < |a| :: (a + "\n" + x)[i] != '\n'
  {
    forall i | 0 <= i < |a| ensures (a + "\n" + x)[i] != '\n' { assert (a + "\n" + x)[i] == a[i]; }
  }

  lemma SameLabel(head: string, a: string, b: string)
    requires head + a == head + b
    ensures a == b
  {
    assert (head + a)[|head|..] == a && (head + b)[|head|..] == b;
  }

  lemma LabelledLine(head: string, a: string, x: string, b: string, y: string)
    requires '\n' !in head && '\n' !in a && '\n' !in b && head + a + "\n" + x == head + b + "\n" + y
    ensures a == b && x == y
  {
    FirstLine(head + a, x, head + b, y);
    SameLabel(head, a, b);
  }

  lemma {:induction false} StripKeepsOneLine(s: string)
    requires OneLine(s)
    ensures OneLine(Strip(s)) && NormalizeNewlines(Strip(s)) == Strip(s)
  {
    StripMeans(s);
    var a, b :| s == a + Strip(s) + b && OnlySpaces(a) && OnlySpaces(b);
    forall c | c in Strip(s) ensures c in s {}
    PlainIsNormal(Strip(s));
  }

  /** Two products whose fields are single lines have the same document exactly when their stripped fields agree. */
  lemma DocumentsTellProductsApart(
    name: string, category: string, description: string, material: Option<string>,
    name': string, category': string, description': string, material': Option<string>)
    requires OneLine(name) && OneLine(category) && OneLine(description) && OneLine(MaterialText(material))
    requires OneLine(name') && OneLine(category') && OneLine(description') && OneLine(MaterialText(material'))
    ensures BuildProductIndexText(name, category, description, material)
            == BuildProductIndexText(name', category', description', material') <==>
            && Strip(name) == Strip(name') && Strip(category) == Strip(category')
            && Strip(description) == Strip(description') && Strip(MaterialText(material)) == Strip(MaterialText(material'))
  {
    DocumentIsFourFields(name, category, description, material);
    DocumentIsFourFields(name', category', description', material');
    StripKeepsOneLine(name);
    StripKeepsOneLine(category);
    StripKeepsOneLine(description);
    StripKeepsOneLine(MaterialText(material));
    StripKeepsOneLine(name');
    StripKeepsOneLine(category');
    StripKeepsOneLine(description');
    StripKeepsOneLine(MaterialText(material'));
    if BuildProductIndexText(name, category, description, material) == BuildProductIndexText(name', category', description', material') {
      var m, m' := "Material: " + Strip(MaterialText(material)), "Material: " + Strip(MaterialText(material'));
      var d, d' := "Description: " + Strip(description) + "\n" + m, "Description: " + Strip(description') + "\n" + m';
      var c, c' := "Category: " + Strip(category) + "\n" + d, "Category: " + Strip(category') + "\n" + d';
      LabelledLine("Name: ", Strip(name), c, Strip(name'), c');
      LabelledLine("Category: ", Strip(category), d, Strip(category'), d');
      LabelledLine("Description: ", Strip(description), m, Strip(description'), m');
      SameLabel("Material: ", Strip(MaterialText(material)), Strip(MaterialText(material')));
    }
  }
}
