/**
 * The HTML page of the home route (app.py, `render_html`). The timestamp
 * formatter (`%Y-%m-%d %H:%M:%S%z`) is a parameter. Text is interpolated as is:
 * the page escapes nothing.
 */
module Render {
  import opened Decimal
  import opened Store

  const ListItemTag := "<li>"
  const BannerText := "Your last acccess is logged!"

  /** One list entry: `#<id> <message> @ <created_at>`. */
  function Item(row: Row, fmt: Timestamp -> string): string {
    "<li><strong>#" + IntToString(row.id) + "</strong> " + row.message + " <em>@ " + fmt(row.createdAt) + "</em></li>"
  }

  /** The entries of all rows, in input order, joined by newlines. */
  function Items(rows: seq<Row>, fmt: Timestamp -> string): string
    decreases |rows|
  {
    if rows == [] then ""
    else if |rows| == 1 then Item(rows[0], fmt)
    else Item(rows[0], fmt) + "\n" + Items(rows[1..], fmt)
  }

  /** The last-access line: the first row's timestamp, or the bare text when there are no rows. */
  function Banner(rows: seq<Row>, fmt: Timestamp -> string): (r: string)
    ensures r == BannerText <==> rows == []
    ensures rows != [] ==> |r| >= |BannerText| + 3 && r[..|BannerText|] == BannerText &&
                           r[|BannerText|..|BannerText| + 3] == " @ " &&
                           r[|BannerText| + 3..] == fmt(rows[0].createdAt)
  {
    if rows == [] then BannerText else BannerText + " @ " + fmt(rows[0].createdAt)
  }

  /*
   * The template of `render_html`, line by line. Each line is cut so that every
   * piece is either text without `<`, or one `<` followed by such text.
   */
  const Doctype := "<!DOCTYPE html>" + "\n"
  const HtmlOpen := "<html lang=\"en\">" + "\n"
  const HeadOpen := "  " + "<head>" + "\n"
  const MetaCharset := "    " + "<meta charset=" + "\"utf-8\" />" + "\n"
  const Title := "    " + "<title>" + "NeonSecurityTask" + "</title>" + "\n"
  const StyleOpen := "    " + "<style>" + "\n"
  const BodyRule := "      body { " + "font-family: sans-serif; " + "margin: 2rem; " + "background: #0d0d16; " + "color: #f0f0ff; }\n"
  const HeadingRule := "      h1 { color: #7f5af0; }\n"
  const EmphasisRule := "      em { color: #94a1b2; " + "font-size: 0.9rem; }\n"
  const StyleClose := "    " + "</style>" + "\n"
  const HeadClose := "  " + "</head>" + "\n"
  const BodyOpen := "  " + "<body>" + "\n"
  const Heading := "    " + "<h1>" + "NeonSecurity: I'M READY " + "TO SERVER YOU MY MASTER! :-)" + "</h1>" + "\n"
  const ListOpen := "    " + "<ul>" + "\n" + "      "

  const StyleRules := BodyRule + HeadingRule + EmphasisRule
  const HeadSection := HeadOpen + MetaCharset + Title + StyleOpen + StyleRules + StyleClose + HeadClose
  const PageHead := Doctype + HtmlOpen + HeadSection + BodyOpen + Heading + ListOpen
  const PageMiddle := "\n    " + "</ul>" + "\n    " + "<p>"
  const PageTail := "</p>" + "\n  " + "</body>" + "\n" + "</html>"

  /** The whole document around the entries and the banner. */
  function Page(items: string, banner: string): string {
    PageHead + items + PageMiddle + banner + PageTail
  }

  /** `render_html` before the final UTF-8 encoding. */
  function RenderHtml(rows: seq<Row>, fmt: Timestamp -> string): string {
    Page(Items(rows, fmt), Banner(rows, fmt))
  }

  /** The number of positions at which `pat` starts in `s`. */
  function Occurrences(s: string, pat: string): nat
    requires |pat| > 0
    decreases |s|
  {
    if |s| < |pat| then 0
    else (if s[..|pat|] == pat then 1 else 0) + Occurrences(s[1..], pat)
  }

  /** No proper prefix of `pat` stands at the very end of `a`, so no occurrence straddles `a + b`. */
  ghost predicate NoPartialMatchAtEnd(a: string, pat: string) {
    forall k :: 0 < k < |pat| && k <= |a| ==> a[|a| - k..] != pat[..k]
  }

  lemma {:induction false} OccurrencesConcat(a: string, b: string, pat: string)
    requires |pat| > 0
    requires NoPartialMatchAtEnd(a, pat)
    ensures Occurrences(a + b, pat) == Occurrences(a, pat) + Occurrences(b, pat)
    decreases |a|
  {
    if a == [] {
      assert a + b == b;
    } else {
      assert (a + b)[1..] == a[1..] + b;
      forall k | 0 < k < |pat| && k <= |a| - 1
        ensures a[1..][|a[1..]| - k..] != pat[..k]
      {
        assert a[1..][|a[1..]| - k..] == a[|a| - k..];
      }
      OccurrencesConcat(a[1..], b, pat);
      if |a| >= |pat| {
        assert (a + b)[..|pat|] == a[..|pat|];
      } else {
        assert a[|a| - |a|..] != pat[..|a|];
        assert |a + b| < |pat| || (a + b)[..|pat|][..|a|] == a;
      }
    }
  }

  /** Text without `<` holds no tag and ends in no part of one. */
  lemma {:induction false} NoAngleNoItem(s: string)
    requires '<' !in s
    ensures Occurrences(s, ListItemTag) == 0
    ensures NoPartialMatchAtEnd(s, ListItemTag)
    decreases |s|
  {
    if |s| >= |ListItemTag| {
      assert s[..4][0] == s[0];
      NoAngleNoItem(s[1..]);
    }
    forall k | 0 < k < |ListItemTag| && k <= |s|
      ensures s[|s| - k..] != ListItemTag[..k]
    {
      assert s[|s| - k..][0] == s[|s| - k];
    }
  }

  /** A tag `<x...>` other than `<l...>`, with no other `<` in it, holds no `<li>` and ends in no part of one. */
  lemma OtherTag(tag: string)
    requires |tag| >= 2 && tag[0] == '<' && tag[1] != 'l' && tag[|tag| - 1] == '>' && '<' !in tag[1..]
    ensures Occurrences(tag, ListItemTag) == 0
    ensures NoPartialMatchAtEnd(tag, ListItemTag)
  {
    NoAngleNoItem(tag[1..]);
    if |tag| >= 4 {
      assert tag[..4][1] != ListItemTag[1];
    }
    forall k | 0 < k < |ListItemTag| && k <= |tag|
      ensures tag[|tag| - k..] != ListItemTag[..k]
    {
      assert tag[|tag| - k..][k - 1] == '>';
    }
  }

  /** `<li>` holds itself once and ends in no proper part of itself. */
  lemma ListItemTagItself()
    ensures Occurrences(ListItemTag, ListItemTag) == 1
    ensures NoPartialMatchAtEnd(ListItemTag, ListItemTag)
  {
    NoAngleNoItem(ListItemTag[1..]);
  }

  /** The tags of an entry other than `<li>` hold no `<li>` and end in no part of one. */
  lemma StrongTags()
    ensures Occurrences("<strong>", ListItemTag) == 0 && NoPartialMatchAtEnd("<strong>", ListItemTag)
    ensures Occurrences("</strong>", ListItemTag) == 0 && NoPartialMatchAtEnd("</strong>", ListItemTag)
  {
    OtherTag("<strong>");
    OtherTag("</strong>");
  }

  lemma EmphasisTags()
    ensures Occurrences("<em>", ListItemTag) == 0 && NoPartialMatchAtEnd("<em>", ListItemTag)
    ensures Occurrences("</em>", ListItemTag) == 0 && NoPartialMatchAtEnd("</em>", ListItemTag)
  {
    OtherTag("<em>");
    OtherTag("</em>");
  }

  lemma ClosingItemTag()
    ensures Occurrences("</li>", ListItemTag) == 0
  {
    OtherTag("</li>");
  }

  /** An entry, cut at its tags. */
  lemma ItemPieces(row: Row, fmt: Timestamp -> string)
    ensures Item(row, fmt) ==
      ListItemTag + ("<strong>" + (("#" + IntToString(row.id)) + ("</strong>" + ((" " + row.message + " ") +
      ("<em>" + (("@ " + fmt(row.createdAt)) + ("</em>" + "</li>")))))))
  {
  }

  /** Counting over nine pieces none of which ends in part of `pat`. */
  lemma OccurrencesOfNine(pat: string, p1: string, p2: string, p3: string, p4: string, p5: string,
                          p6: string, p7: string, p8: string, p9: string)
    requires |pat| > 0
    requires NoPartialMatchAtEnd(p1, pat) && NoPartialMatchAtEnd(p2, pat) && NoPartialMatchAtEnd(p3, pat)
    requires NoPartialMatchAtEnd(p4, pat) && NoPartialMatchAtEnd(p5, pat) && NoPartialMatchAtEnd(p6, pat)
    requires NoPartialMatchAtEnd(p7, pat) && NoPartialMatchAtEnd(p8, pat)
    ensures Occurrences(p1 + (p2 + (p3 + (p4 + (p5 + (p6 + (p7 + (p8 + p9))))))), pat) ==
      Occurrences(p1, pat) + Occurrences(p2, pat) + Occurrences(p3, pat) + Occurrences(p4, pat) +
      Occurrences(p5, pat) + Occurrences(p6, pat) + Occurrences(p7, pat) + Occurrences(p8, pat) + Occurrences(p9, pat)
  {
    OccurrencesConcat(p8, p9, pat);
    OccurrencesConcat(p7, p8 + p9, pat);
    OccurrencesConcat(p6, p7 + (p8 + p9), pat);
    OccurrencesConcat(p5, p6 + (p7 + (p8 + p9)), pat);
    OccurrencesConcat(p4, p5 + (p6 + (p7 + (p8 + p9))), pat);
    OccurrencesConcat(p3, p4 + (p5 + (p6 + (p7 + (p8 + p9)))), pat);
    OccurrencesConcat(p2, p3 + (p4 + (p5 + (p6 + (p7 + (p8 + p9))))), pat);
    OccurrencesConcat(p1, p2 + (p3 + (p4 + (p5 + (p6 + (p7 + (p8 + p9)))))), pat);
  }

  /** The decimal text of an id holds no `<`. */
  lemma IdHasNoAngle(id: int)
    ensures '<' !in IntToString(id)
  {
    var s := IntToString(id);
    forall k | 0 <= k < |s| ensures s[k] != '<' {
    }
  }

  /** An entry ends with `>`, so with no part of `<li>`. */
  lemma ItemEndsClosed(row: Row, fmt: Timestamp -> string)
    ensures NoPartialMatchAtEnd(Item(row, fmt), ListItemTag)
  {
    var whole := Item(row, fmt);
    forall k | 0 < k < |ListItemTag| && k <= |whole|
      ensures whole[|whole| - k..] != ListItemTag[..k]
    {
      assert whole[|whole| - k..][k - 1] == '>';
    }
  }

  /** A row whose message and formatted timestamp hold no `<` renders to exactly one `<li>`. */
  lemma ItemHasOneTag(row: Row, fmt: Timestamp -> string)
    requires '<' !in row.message && '<' !in fmt(row.createdAt)
    ensures Occurrences(Item(row, fmt), ListItemTag) == 1
    ensures NoPartialMatchAtEnd(Item(row, fmt), ListItemTag)
  {
    var id := "#" + IntToString(row.id);
    var msg := " " + row.message + " ";
    var ts := "@ " + fmt(row.createdAt);
    IdHasNoAngle(row.id);
    NoAngleNoItem(id);
    NoAngleNoItem(msg);
    NoAngleNoItem(ts);
    StrongTags();
    EmphasisTags();
    ClosingItemTag();
    ListItemTagItself();
    OccurrencesOfNine(ListItemTag, ListItemTag, "<strong>", id, "</strong>", msg, "<em>", ts, "</em>", "</li>");
    ItemPieces(row, fmt);
    ItemEndsClosed(row, fmt);
  }

  /**
   * The list section holds exactly one `<li>` per row, provided no message and no
   * formatted timestamp contains `<` (nothing is escaped).
   */
  lemma {:induction false} OneItemPerRow(rows: seq<Row>, fmt: Timestamp -> string)
    requires forall i :: 0 <= i < |rows| ==> '<' !in rows[i].message && '<' !in fmt(rows[i].createdAt)
    ensures Occurrences(Items(rows, fmt), ListItemTag) == |rows|
    decreases |rows|
  {
    if rows == [] {
    } else if |rows| == 1 {
      ItemHasOneTag(rows[0], fmt);
    } else {
      ItemHasOneTag(rows[0], fmt);
      OneItemPerRow(rows[1..], fmt);
      CountAcrossNewline(Item(rows[0], fmt), Items(rows[1..], fmt));
    }
  }

  /** Joining an entry to the rest with a newline adds the entry's `<li>` count and no more. */
  lemma CountAcrossNewline(item: string, rest: string)
    requires NoPartialMatchAtEnd(item, ListItemTag)
    ensures Occurrences(item + "\n" + rest, ListItemTag) ==
            Occurrences(item, ListItemTag) + Occurrences(rest, ListItemTag)
  {
    NoAngleNoItem("\n");
    OccurrencesConcat("\n", rest, ListItemTag);
    OccurrencesConcat(item, "\n" + rest, ListItemTag);
    assert item + "\n" + rest == item + ("\n" + rest);
  }

  /** A string ending in none of `<`, `l`, `i` ends in no proper part of `<li>`. */
  lemma QuietEnd(s: string)
    requires |s| > 0 && s[|s| - 1] != '<' && s[|s| - 1] != 'l' && s[|s| - 1] != 'i'
    ensures NoPartialMatchAtEnd(s, ListItemTag)
  {
    forall k | 0 < k < |ListItemTag| && k <= |s|
      ensures s[|s| - k..] != ListItemTag[..k]
    {
      assert s[|s| - k..][k - 1] == s[|s| - 1];
    }
  }

  /**
   * A piece of the template: no `<` in it is followed by `l`, and it does not end
   * in `<`. Such a piece starts no `<li>`, whatever follows it.
   */
  ghost predicate Clean(p: string) {
    && |p| > 0
    && p[|p| - 1] != '<'
    && forall i :: 0 <= i < |p| - 1 ==> p[i] != '<' || p[i + 1] != 'l'
  }

  lemma CleanText(t: string)
    requires '<' !in t && |t| > 0
    ensures Clean(t)
  {
  }

  lemma CleanTag(tag: string)
    requires |tag| >= 2 && tag[0] == '<' && tag[1] != 'l' && '<' !in tag[1..]
    ensures Clean(tag)
  {
    forall i | 1 <= i < |tag|
      ensures tag[i] != '<'
    {
      assert tag[i] == tag[1..][i - 1];
    }
  }

  lemma CleanJoin(a: string, b: string)
    requires Clean(a) && Clean(b)
    ensures Clean(a + b)
  {
    var ab := a + b;
    forall i | 0 <= i < |ab| - 1
      ensures ab[i] != '<' || ab[i + 1] != 'l'
    {
      if i < |a| - 1 {
        assert ab[i] == a[i] && ab[i + 1] == a[i + 1];
      } else if i == |a| - 1 {
        assert ab[i] == a[|a| - 1];
      } else {
        assert ab[i] == b[i - |a|] && ab[i + 1] == b[i + 1 - |a|];
      }
    }
    assert ab[|ab| - 1] == b[|b| - 1];
  }

  lemma CleanJoin3(a: string, b: string, c: string)
    requires Clean(a) && Clean(b) && Clean(c)
    ensures Clean(a + b + c)
  {
    CleanJoin(a, b);
    CleanJoin(a + b, c);
  }

  /** A clean piece in front of any text adds no `<li>`. */
  lemma {:induction false} CleanPrefix(a: string, b: string)
    requires Clean(a)
    ensures Occurrences(a + b, ListItemTag) == Occurrences(b, ListItemTag)
    decreases |a|
  {
    var ab := a + b;
    assert ab[1..] == a[1..] + b;
    if |a| == 1 {
      assert a[1..] + b == b;
    } else {
      forall i | 0 <= i < |a[1..]| - 1
        ensures a[1..][i] != '<' || a[1..][i + 1] != 'l'
      {
        assert a[1..][i] == a[i + 1] && a[1..][i + 1] == a[i + 2];
      }
      CleanPrefix(a[1..], b);
    }
    if |ab| >= |ListItemTag| {
      assert ab[..|ListItemTag|] != ListItemTag by {
        if a[0] == '<' {
          assert ab[..|ListItemTag|][1] == a[1];
        } else {
          assert ab[..|ListItemTag|][0] == a[0];
        }
      }
      assert Occurrences(ab, ListItemTag) == Occurrences(ab[1..], ListItemTag);
    }
  }

  // The pieces of the template, checked a few at a time.

  lemma SpacingClean()
    ensures Clean("\n") && Clean("  ") && Clean("    ") && Clean("      ")
    ensures Clean("\n  ") && Clean("\n    ")
  {
    CleanText("\n");
    CleanText("  ");
    CleanText("    ");
    CleanText("      ");
    CleanText("\n  ");
    CleanText("\n    ");
  }

  lemma DoctypeTagClean()
    ensures Clean("<!DOCTYPE html>")
  {
    CleanTag("<!DOCTYPE html>");
  }

  lemma HtmlTagClean()
    ensures Clean("<html lang=\"en\">")
  {
    CleanTag("<html lang=\"en\">");
  }

  lemma MetaTagClean()
    ensures Clean("<meta charset=") && Clean("\"utf-8\" />")
  {
    CleanTag("<meta charset=");
    CleanText("\"utf-8\" />");
  }

  lemma HeadTagsClean()
    ensures Clean("<head>") && Clean("</head>") && Clean("<title>") && Clean("</title>")
  {
    CleanTag("<head>");
    CleanTag("</head>");
    CleanTag("<title>");
    CleanTag("</title>");
  }

  lemma StyleTagsClean()
    ensures Clean("<style>") && Clean("</style>") && Clean("<body>") && Clean("</body>")
  {
    CleanTag("<style>");
    CleanTag("</style>");
    CleanTag("<body>");
    CleanTag("</body>");
  }

  lemma BodyTagsClean()
    ensures Clean("<h1>") && Clean("</h1>") && Clean("<ul>") && Clean("</ul>")
    ensures Clean("<p>") && Clean("</p>") && Clean("</html>")
  {
    CleanTag("<h1>");
    CleanTag("</h1>");
    CleanTag("<ul>");
    CleanTag("</ul>");
    CleanTag("<p>");
    CleanTag("</p>");
    CleanTag("</html>");
  }

  lemma TitleTextClean()
    ensures Clean("NeonSecurityTask")
  {
    CleanText("NeonSecurityTask");
  }

  lemma HeadingTextClean()
    ensures Clean("NeonSecurity: I'M READY ") && Clean("TO SERVER YOU MY MASTER! :-)")
  {
    CleanText("NeonSecurity: I'M READY ");
    CleanText("TO SERVER YOU MY MASTER! :-)");
  }

  lemma BodyRulePieces()
    ensures Clean("      body { ") && Clean("font-family: sans-serif; ") && Clean("margin: 2rem; ")
  {
    CleanText("      body { ");
    CleanText("font-family: sans-serif; ");
    CleanText("margin: 2rem; ");
  }

  lemma BodyRuleColours()
    ensures Clean("background: #0d0d16; ") && Clean("color: #f0f0ff; }\n")
  {
    CleanText("background: #0d0d16; ");
    CleanText("color: #f0f0ff; }\n");
  }

  lemma HeadingRuleClean()
    ensures Clean(HeadingRule)
  {
    CleanText(HeadingRule);
  }

  lemma EmphasisRulePieces()
    ensures Clean("      em { color: #94a1b2; ") && Clean("font-size: 0.9rem; }\n")
  {
    CleanText("      em { color: #94a1b2; ");
    CleanText("font-size: 0.9rem; }\n");
  }

  // The lines of the template, joined from their pieces.

  lemma DocumentLinesClean()
    ensures Clean(Doctype) && Clean(HtmlOpen)
  {
    SpacingClean();
    DoctypeTagClean();
    HtmlTagClean();
    CleanJoin("<!DOCTYPE html>", "\n");
    CleanJoin("<html lang=\"en\">", "\n");
  }

  lemma HeadLinesClean()
    ensures Clean(HeadOpen) && Clean(MetaCharset) && Clean(HeadClose)
  {
    SpacingClean();
    HeadTagsClean();
    MetaTagClean();
    CleanJoin3("  ", "<head>", "\n");
    CleanJoin3("    ", "<meta charset=", "\"utf-8\" />");
    CleanJoin("    " + "<meta charset=" + "\"utf-8\" />", "\n");
    CleanJoin3("  ", "</head>", "\n");
  }

  lemma TitleClean()
    ensures Clean(Title)
  {
    SpacingClean();
    HeadTagsClean();
    TitleTextClean();
    CleanJoin3("    ", "<title>", "NeonSecurityTask");
    CleanJoin3("    " + "<title>" + "NeonSecurityTask", "</title>", "\n");
  }

  lemma StyleLinesClean()
    ensures Clean(StyleOpen) && Clean(StyleClose) && Clean(BodyOpen)
  {
    SpacingClean();
    StyleTagsClean();
    CleanJoin3("    ", "<style>", "\n");
    CleanJoin3("    ", "</style>", "\n");
    CleanJoin3("  ", "<body>", "\n");
  }

  lemma BodyRuleClean()
    ensures Clean(BodyRule)
  {
    BodyRulePieces();
    BodyRuleColours();
    CleanJoin3("      body { ", "font-family: sans-serif; ", "margin: 2rem; ");
    CleanJoin3("      body { " + "font-family: sans-serif; " + "margin: 2rem; ", "background: #0d0d16; ", "color: #f0f0ff; }\n");
  }

  lemma StyleRulesClean()
    ensures Clean(StyleRules)
  {
    BodyRuleClean();
    HeadingRuleClean();
    EmphasisRulePieces();
    CleanJoin("      em { color: #94a1b2; ", "font-size: 0.9rem; }\n");
    CleanJoin3(BodyRule, HeadingRule, EmphasisRule);
  }

  lemma HeadSectionClean()
    ensures Clean(HeadSection)
  {
    HeadLinesClean();
    TitleClean();
    StyleLinesClean();
    StyleRulesClean();
    CleanJoin3(HeadOpen, MetaCharset, Title);
    CleanJoin3(HeadOpen + MetaCharset + Title, StyleOpen, StyleRules);
    CleanJoin3(HeadOpen + MetaCharset + Title + StyleOpen + StyleRules, StyleClose, HeadClose);
  }

  lemma HeadingClean()
    ensures Clean(Heading) && Clean(ListOpen)
  {
    SpacingClean();
    BodyTagsClean();
    HeadingTextClean();
    CleanJoin3("    ", "<h1>", "NeonSecurity: I'M READY ");
    CleanJoin3("    " + "<h1>" + "NeonSecurity: I'M READY ", "TO SERVER YOU MY MASTER! :-)", "</h1>");
    CleanJoin("    " + "<h1>" + "NeonSecurity: I'M READY " + "TO SERVER YOU MY MASTER! :-)" + "</h1>", "\n");
    CleanJoin3("    ", "<ul>", "\n");
    CleanJoin("    " + "<ul>" + "\n", "      ");
  }

  lemma PageHeadClean()
    ensures Clean(PageHead)
  {
    DocumentLinesClean();
    HeadSectionClean();
    StyleLinesClean();
    HeadingClean();
    CleanJoin3(Doctype, HtmlOpen, HeadSection);
    CleanJoin3(Doctype + HtmlOpen + HeadSection, BodyOpen, Heading);
    CleanJoin(Doctype + HtmlOpen + HeadSection + BodyOpen + Heading, ListOpen);
  }

  lemma PageMiddleClean()
    ensures Clean(PageMiddle)
  {
    SpacingClean();
    BodyTagsClean();
    CleanJoin3("\n    ", "</ul>", "\n    ");
    CleanJoin("\n    " + "</ul>" + "\n    ", "<p>");
  }

  lemma PageTailClean()
    ensures Clean(PageTail)
  {
    SpacingClean();
    StyleTagsClean();
    BodyTagsClean();
    CleanJoin3("</p>", "\n  ", "</body>");
    CleanJoin3("</p>" + "\n  " + "</body>", "\n", "</html>");
  }

  /** The entries of at least one row end with `>`. */
  lemma {:induction false} ItemsEndClosed(rows: seq<Row>, fmt: Timestamp -> string)
    requires rows != []
    ensures |Items(rows, fmt)| > 0 && Items(rows, fmt)[|Items(rows, fmt)| - 1] == '>'
    decreases |rows|
  {
    if |rows| == 1 {
      var whole := Item(rows[0], fmt);
      assert whole[|whole| - 1] == '>';
    } else {
      ItemsEndClosed(rows[1..], fmt);
      var rest := Items(rows[1..], fmt);
      assert Items(rows, fmt) == Item(rows[0], fmt) + "\n" + rest;
      assert Items(rows, fmt)[|Items(rows, fmt)| - 1] == rest[|rest| - 1];
    }
  }

  /** The banner holds no `<` when the shown timestamp holds none. */
  lemma BannerNoAngle(rows: seq<Row>, fmt: Timestamp -> string)
    requires rows == [] || '<' !in fmt(rows[0].createdAt)
    ensures '<' !in Banner(rows, fmt)
  {
    assert '<' !in BannerText;
  }

  /** The banner and the closing template add no `<li>`. */
  lemma BannerThenTail(banner: string, tail: string)
    requires '<' !in banner && Clean(tail)
    ensures Occurrences(banner + tail, ListItemTag) == 0
  {
    NoAngleNoItem(banner);
    OccurrencesConcat(banner, tail, ListItemTag);
    CleanPrefix(tail, []);
    assert tail + [] == tail;
  }

  /** The entries of the list end in no part of `<li>`, so counting splits after them. */
  lemma ItemsThen(items: string, rest: string)
    requires items == [] || items[|items| - 1] == '>'
    ensures Occurrences(items + rest, ListItemTag) == Occurrences(items, ListItemTag) + Occurrences(rest, ListItemTag)
  {
    if items != [] {
      QuietEnd(items);
    }
    OccurrencesConcat(items, rest, ListItemTag);
  }

  lemma Regroup(head: string, items: string, middle: string, banner: string, tail: string)
    ensures head + items + middle + banner + tail == head + (items + (middle + (banner + tail)))
  {
  }

  /** Clean template pieces around the entries and the banner add no `<li>`. */
  lemma FramingAddsNoItem(head: string, items: string, middle: string, banner: string, tail: string)
    requires Clean(head) && Clean(middle) && Clean(tail)
    requires items == [] || items[|items| - 1] == '>'
    requires '<' !in banner
    ensures Occurrences(head + items + middle + banner + tail, ListItemTag) == Occurrences(items, ListItemTag)
  {
    var rest := banner + tail;
    BannerThenTail(banner, tail);
    CleanPrefix(middle, rest);
    ItemsThen(items, middle + rest);
    CleanPrefix(head, items + (middle + rest));
    Regroup(head, items, middle, banner, tail);
  }

  /**
   * The page `render_html` returns holds exactly one `<li>` per row, none when there
   * are no rows, provided no message and no formatted timestamp contains `<`.
   */
  lemma RenderHtmlOneItemPerRow(rows: seq<Row>, fmt: Timestamp -> string)
    requires forall i :: 0 <= i < |rows| ==> '<' !in rows[i].message && '<' !in fmt(rows[i].createdAt)
    ensures Occurrences(RenderHtml(rows, fmt), ListItemTag) == |rows|
  {
    OneItemPerRow(rows, fmt);
    if rows != [] {
      ItemsEndClosed(rows, fmt);
    }
    BannerNoAngle(rows, fmt);
    PageHeadClean();
    PageMiddleClean();
    PageTailClean();
    FramingAddsNoItem(PageHead, Items(rows, fmt), PageMiddle, Banner(rows, fmt), PageTail);
  }

  /**
   * Entries appear in input order: the entries of any split of the rows are the
   * entries of the first part, a newline, then the entries of the second part.
   */
  lemma {:induction false} ItemsInOrder(rows: seq<Row>, k: nat, fmt: Timestamp -> string)
    requires 0 < k < |rows|
    ensures Items(rows, fmt) == Items(rows[..k], fmt) + "\n" + Items(rows[k..], fmt)
    decreases k
  {
    assert rows[..k][1..] == rows[1..][..k - 1];
    assert rows[k..] == rows[1..][k - 1..];
    if k > 1 {
      ItemsInOrder(rows[1..], k - 1, fmt);
    }
  }
}
