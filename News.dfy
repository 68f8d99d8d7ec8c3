/** The news digest of main.py: the first three articles of the news search,
    each rendered as a four-line block, joined with newlines and stripped. The
    HTTP request and the JSON decoding are outside the model: it starts from
    the already-decoded list of articles. */
module News {
  import opened PyText

  datatype Article = Article(title: string, description: string, url: string)

  /** At most this many articles make it into the digest. */
  const MaxArticles: nat := 3

  function Min(a: nat, b: nat): nat {
    if a <= b then a else b
  }

  /** The articles the digest is built from: the first `min(3, n)`, in their
      original order. */
  function Top(articles: seq<Article>): (top: seq<Article>)
    ensures |top| <= |articles| && top == articles[..|top|]
    ensures |articles| <= MaxArticles ==> top == articles
    ensures |articles| >= MaxArticles ==> |top| == MaxArticles
  {
    articles[..Min(MaxArticles, |articles|)]
  }

  /** The header line of the `i`-th (0-based) block: a newline, `Article `, the
      decimal text of `i + 1` and a colon. */
  function Header(i: nat): (h: string)
    ensures |h| >= 11 && "\nArticle " <= h && h[|h| - 1] == ':'
  {
    "\nArticle " + NatToString(i + 1) + ":"
  }

  /** The number in a header reads back as the article's 1-based position, so
      no two blocks carry the same number. */
  lemma {:induction false} HeaderNumber(i: nat)
    ensures var h := Header(i); forall j :: 9 <= j < |h| - 1 ==> '0' <= h[j] <= '9'
    ensures var h := Header(i); DecimalValue(h[9..|h| - 1]) == i + 1
  {
    var h := Header(i);
    assert h[9..|h| - 1] == NatToString(i + 1);
    NatToStringRoundTrip(i + 1);
  }

  /** The four lines appended for the `i`-th article (the label spelling
      "Decription" is the program's own): the header, then each field behind
      its label, from which it can be read back. */
  function Block(i: nat, a: Article): (b: seq<string>)
    ensures |b| == 4 && b[0] == Header(i) && b[3] == a.url
    ensures "Title: " <= b[1] && b[1][7..] == a.title
    ensures "Decription: " <= b[2] && b[2][12..] == a.description
  {
    [Header(i), "Title: " + a.title, "Decription: " + a.description, a.url]
  }

  /** The list of lines built for the given articles, numbered from 1. */
  function Blocks(articles: seq<Article>): (lines: seq<string>)
    ensures |lines| == 4 * |articles|
  {
    if articles == [] then []
    else Blocks(articles[..|articles| - 1]) + Block(|articles| - 1, articles[|articles| - 1])
  }

  /** The digest `get_news_articles` returns for the decoded article list. */
  function Digest(articles: seq<Article>): (d: string)
    ensures d == [] || (!IsSpace(d[0]) && !IsSpace(d[|d| - 1]))
  {
    Strip(Join(Blocks(Top(articles)), "\n"))
  }

  /** The loop of `get_news_articles`: four lines per article for the first
      `min(3, n)` articles. */
  method SummarizeTopArticles(articles: seq<Article>) returns (lines: seq<string>)
    ensures lines == Blocks(Top(articles))
  {
    lines := [];
    var n := Min(MaxArticles, |articles|);
    for i := 0 to n
      invariant lines == Blocks(articles[..i])
    {
      lines := lines + ["\nArticle " + NatToString(i + 1) + ":"];
      lines := lines + ["Title: " + articles[i].title];
      lines := lines + ["Decription: " + articles[i].description];
      lines := lines + [articles[i].url];
      assert articles[..i + 1][..i] == articles[..i];
    }
  }

  /** `get_news_articles` after the articles are decoded: the lines joined with
      newlines, then stripped. */
  method GetNewsArticles(articles: seq<Article>) returns (digest: string)
    ensures digest == Digest(articles)
  {
    var lines := SummarizeTopArticles(articles);
    digest := Strip(Join(lines, "\n"));
  }

  /** The digest holds exactly `min(3, n)` blocks: block `k` is made from the
      `k`-th article, in the original order, with the header `Article k+1:`. */
  lemma {:induction false} BlocksAt(articles: seq<Article>, k: nat)
    requires k < |articles|
    ensures Blocks(articles)[4 * k..4 * k + 4] == Block(k, articles[k])
  {
    var n := |articles|;
    var front := articles[..n - 1];
    var pre, last := Blocks(front), Block(n - 1, articles[n - 1]);
    assert Blocks(articles) == pre + last;
    if k < n - 1 {
      BlocksAt(front, k);
      assert front[k] == articles[k];
      assert (pre + last)[4 * k..4 * k + 4] == pre[4 * k..4 * k + 4];
    } else {
      assert (pre + last)[4 * k..4 * k + 4] == last;
    }
  }

  /** The lines built for the digest: exactly four per article for the first
      `min(3, n)` articles, block `k` numbered `k + 1` and filled from the
      `k`-th article, in order. */
  lemma {:induction false} SummaryLayout(articles: seq<Article>, k: nat)
    requires k < |articles| && k < MaxArticles
    ensures |Blocks(Top(articles))| == 4 * (if |articles| < MaxArticles then |articles| else MaxArticles)
    ensures Blocks(Top(articles))[4 * k..4 * k + 4]
         == ["\nArticle " + NatToString(k + 1) + ":", "Title: " + articles[k].title,
             "Decription: " + articles[k].description, articles[k].url]
  {
    BlocksAt(Top(articles), k);
  }

  /** Articles after the third never influence the digest. */
  lemma {:induction false} LaterArticlesIgnored(articles: seq<Article>, more: seq<Article>)
    requires |articles| >= MaxArticles
    ensures Digest(articles + more) == Digest(articles)
  {
    var all := articles + more;
    assert Min(MaxArticles, |all|) == MaxArticles == Min(MaxArticles, |articles|);
    assert forall k :: 0 <= k < MaxArticles ==> all[k] == articles[k];
    assert all[..MaxArticles] == articles[..MaxArticles];
  }

  /** No articles, empty digest. */
  lemma {:induction false} NoArticlesEmptyDigest()
    ensures Digest([]) == ""
  {
  }

  /** One block rendered on its own: header, title, description and url lines. */
  function BlockText(i: nat, a: Article): string {
    Header(i) + "\nTitle: " + a.title + "\nDecription: " + a.description + "\n" + a.url
  }

  lemma {:induction false} BlockJoin(i: nat, a: Article)
    ensures Join(Block(i, a), "\n") == BlockText(i, a)
  {
    var b := Block(i, a);
    assert b[..3][..2][..1] == [Header(i)];
    assert Join(b[..3][..2], "\n") == Header(i) + "\n" + ("Title: " + a.title);
    assert Join(b[..3], "\n") == Header(i) + "\n" + ("Title: " + a.title) + "\n" + ("Decription: " + a.description);
    assert "\n" + ("Title: " + a.title) == "\nTitle: " + a.title;
    assert "\n" + ("Decription: " + a.description) == "\nDecription: " + a.description;
  }

  /** The text before stripping: the first block is the lone block text, and
      each further block follows the previous url after one newline, which with
      the header's own leading newline makes one blank line between blocks. */
  lemma {:induction false} JoinedFirst(a: Article)
    ensures Join(Blocks([a]), "\n") == BlockText(0, a)
  {
    assert [a][..0] == [];
    assert Blocks([a]) == Block(0, a);
    BlockJoin(0, a);
  }

  lemma {:induction false} JoinedNext(articles: seq<Article>, a: Article)
    requires articles != []
    ensures Join(Blocks(articles + [a]), "\n") == Join(Blocks(articles), "\n") + "\n" + BlockText(|articles|, a)
    ensures BlockText(|articles|, a)[0] == '\n'
  {
    var all := articles + [a];
    assert all[..|all| - 1] == articles;
    assert Blocks(all) == Blocks(articles) + Block(|articles|, a);
    JoinAppend(Blocks(articles), Block(|articles|, a), "\n");
    BlockJoin(|articles|, a);
  }

  /** The text before stripping starts with the first block. */
  lemma {:induction false} JoinedStartsWithFirst(articles: seq<Article>)
    requires articles != []
    ensures BlockText(0, articles[0]) <= Join(Blocks(articles), "\n")
  {
    var n := |articles|;
    if n == 1 {
      assert articles == [articles[0]];
      JoinedFirst(articles[0]);
    } else {
      var front := articles[..n - 1];
      assert articles == front + [articles[n - 1]];
      JoinedStartsWithFirst(front);
      JoinedNext(front, articles[n - 1]);
    }
  }

  lemma {:induction false} FirstBlockShape(a: Article)
    ensures BlockText(0, a)
         == "\n" + ("Article 1:" + "\nTitle: " + a.title + "\nDecription:") + (" " + a.description + "\n" + a.url)
  {
    assert NatToString(1) == "1";
    assert Header(0) == "\n" + "Article 1:";
  }

  lemma {:induction false} PrefixAfterFirst(s: string, c: char, p: string, rest: string)
    requires [c] + p + rest <= s
    ensures p <= s[1..] && s[0] == c
  {
    assert s[1..|p| + 1] == ([c] + p + rest)[1..|p| + 1];
  }

  /** With at least one article, the joined text begins with a newline and
      then the first header's `Article 1:`, so stripping the front removes that
      newline and nothing else. */
  lemma {:induction false} JoinedStart(articles: seq<Article>)
    requires articles != []
    ensures var joined := Join(Blocks(Top(articles)), "\n");
            joined[0] == '\n'
            && "Article 1:" + "\nTitle: " + articles[0].title + "\nDecription:" <= joined[1..]
  {
    var top := Top(articles);
    var joined := Join(Blocks(top), "\n");
    JoinedStartsWithFirst(top);
    FirstBlockShape(top[0]);
    var p := "Article 1:" + "\nTitle: " + top[0].title + "\nDecription:";
    var rest := " " + top[0].description + "\n" + top[0].url;
    assert "\n" + p + rest == ['\n'] + p + rest;
    PrefixAfterFirst(joined, '\n', p, rest);
  }

  /** With at least one article, stripping removes exactly the leading newline
      of the first header at the front. */
  lemma {:induction false} DigestStart(articles: seq<Article>)
    requires articles != []
    ensures var joined := Join(Blocks(Top(articles)), "\n");
            joined[0] == '\n' && Digest(articles) == StripTrailing(joined[1..])
  {
    var joined := Join(Blocks(Top(articles)), "\n");
    var p := "Article 1:" + "\nTitle: " + articles[0].title + "\nDecription:";
    JoinedStart(articles);
    assert joined[1] == 'A' by {
      assert joined[1..][0] == p[0];
    }
    StripOneLeading(joined);
  }

  /** The digest begins with the first block's header, title line and
      description label, whatever the article texts are. */
  lemma {:induction false} DigestBegins(articles: seq<Article>)
    requires articles != []
    ensures "Article 1:" + "\nTitle: " + articles[0].title + "\nDecription:" <= Digest(articles)
  {
    var joined := Join(Blocks(Top(articles)), "\n");
    var p := "Article 1:" + "\nTitle: " + articles[0].title + "\nDecription:";
    JoinedStart(articles);
    DigestStart(articles);
    assert p[|p| - 1] == ':';
    KeepsPrefix(joined[1..], p);
  }

  /** A block's text ends with its url. */
  lemma {:induction false} BlockTextEndsWithUrl(i: nat, a: Article)
    ensures var b := BlockText(i, a); |a.url| < |b| && b[|b| - |a.url|..] == a.url
  {
    var pre := Header(i) + "\nTitle: " + a.title + "\nDecription: " + a.description + "\n";
    assert BlockText(i, a) == pre + a.url;
  }

  lemma {:induction false} SuffixOfAppend(x: string, y: string, u: string)
    requires |u| < |y| && y[|y| - |u|..] == u
    ensures |u| < |x + y| && (x + y)[|x + y| - |u|..] == u
  {
    assert (x + y)[|x + y| - |u|..] == y[|y| - |u|..];
  }

  /** The text before stripping ends with the last article's url. */
  lemma {:induction false} JoinedEndsWithLast(articles: seq<Article>)
    requires articles != []
    ensures var joined := Join(Blocks(articles), "\n"); var url := articles[|articles| - 1].url;
            |url| < |joined| && joined[|joined| - |url|..] == url
  {
    var n := |articles|;
    var last := articles[n - 1];
    BlockTextEndsWithUrl(n - 1, last);
    if n == 1 {
      assert articles == [last];
      JoinedFirst(last);
    } else {
      var front := articles[..n - 1];
      assert articles == front + [last];
      JoinedNext(front, last);
      SuffixOfAppend(Join(Blocks(front), "\n") + "\n", BlockText(n - 1, last), last.url);
    }
  }

  /** When the last included url ends in a non-whitespace character, the digest
      is the joined text with only its first character (a newline) removed. */
  lemma {:induction false} DigestExact(articles: seq<Article>)
    requires articles != []
    requires var last := Top(articles)[|Top(articles)| - 1].url; last != [] && !IsSpace(last[|last| - 1])
    ensures var joined := Join(Blocks(Top(articles)), "\n"); Digest(articles) == joined[1..]
  {
    DigestStart(articles);
    JoinedTailKept(Top(articles));
  }

  /** Dropping the first character of the joined text leaves nothing to strip
      at the back when the last url ends in a non-whitespace character. */
  lemma {:induction false} JoinedTailKept(top: seq<Article>)
    requires top != []
    requires var last := top[|top| - 1].url; last != [] && !IsSpace(last[|last| - 1])
    ensures var joined := Join(Blocks(top), "\n"); |joined| >= 2 && StripTrailing(joined[1..]) == joined[1..]
  {
    var joined := Join(Blocks(top), "\n");
    var url := top[|top| - 1].url;
    JoinedEndsWithLast(top);
    assert joined[|joined| - 1] == url[|url| - 1];
    var tail := joined[1..];
    assert |tail| >= 1 && tail[|tail| - 1] == joined[|joined| - 1];
    StripTrailingKeepsAll(tail);
  }

  /** The blocks of the first three sample articles of the example below. */
  lemma {:induction false} SampleBlock1()
    ensures BlockText(0, Article("T1", "D1", "u1")) == "\n" + "Article 1:\nTitle: T1\nDecription: D1\nu1"
  {
    assert Header(0) == "\n" + "Article 1:" by {
      assert NatToString(1) == "1";
    }
  }

  lemma {:induction false} SampleBlock2()
    ensures BlockText(1, Article("T2", "D2", "u2")) == "\n" + "Article 2:\nTitle: T2\nDecription: D2\nu2"
  {
    assert Header(1) == "\n" + "Article 2:" by {
      assert NatToString(2) == "2";
    }
  }

  lemma {:induction false} SampleBlock3()
    ensures BlockText(2, Article("T3", "D3", "u3")) == "\n" + "Article 3:\nTitle: T3\nDecription: D3\nu3"
  {
    assert Header(2) == "\n" + "Article 3:" by {
      assert NatToString(3) == "3";
    }
  }

  lemma {:induction false} JoinedThree(a1: Article, a2: Article, a3: Article)
    ensures Join(Blocks([a1, a2, a3]), "\n") == BlockText(0, a1) + "\n" + BlockText(1, a2) + "\n" + BlockText(2, a3)
  {
    JoinedFirst(a1);
    assert [a1] + [a2] == [a1, a2];
    JoinedNext([a1], a2);
    assert [a1, a2] + [a3] == [a1, a2, a3];
    JoinedNext([a1, a2], a3);
  }

  lemma {:induction false} DropFirst(b1: string, s1: string, b2: string, s2: string, b3: string)
    requires b1 != []
    ensures (b1 + s1 + b2 + s2 + b3)[1..] == b1[1..] + s1 + b2 + s2 + b3
  {
  }

  /** With three or more articles whose third url ends in a non-whitespace
      character, the digest is the first block without its leading newline,
      then the second and third blocks, each after one newline. */
  lemma {:induction false} ThreeBlockDigest(articles: seq<Article>)
    requires |articles| >= MaxArticles
    requires var url := articles[2].url; url != [] && !IsSpace(url[|url| - 1])
    ensures Digest(articles)
         == BlockText(0, articles[0])[1..] + "\n" + BlockText(1, articles[1]) + "\n" + BlockText(2, articles[2])
  {
    var a1, a2, a3 := articles[0], articles[1], articles[2];
    assert Top(articles) == [a1, a2, a3];
    JoinedThree(a1, a2, a3);
    DigestExact(articles);
    var b1, b2, b3 := BlockText(0, a1), BlockText(1, a2), BlockText(2, a3);
    DropFirst(b1, "\n", b2, "\n", b3);
  }

  lemma {:induction false} DropNewline(s: string, t: string)
    requires s == "\n" + t
    ensures s[1..] == t
  {
  }

  /** Five articles in, three blocks out, separated by blank lines. */
  lemma {:induction false} FiveArticlesExample()
    ensures Digest([Article("T1", "D1", "u1"), Article("T2", "D2", "u2"), Article("T3", "D3", "u3"),
                    Article("T4", "D4", "u4"), Article("T5", "D5", "u5")])
         == "Article 1:\nTitle: T1\nDecription: D1\nu1"
            + "\n" + ("\n" + "Article 2:\nTitle: T2\nDecription: D2\nu2")
            + "\n" + ("\n" + "Article 3:\nTitle: T3\nDecription: D3\nu3")
  {
    ThreeBlockDigest([Article("T1", "D1", "u1"), Article("T2", "D2", "u2"), Article("T3", "D3", "u3"),
                      Article("T4", "D4", "u4"), Article("T5", "D5", "u5")]);
    SampleBlock1();
    SampleBlock2();
    SampleBlock3();
    DropNewline(BlockText(0, Article("T1", "D1", "u1")), "Article 1:\nTitle: T1\nDecription: D1\nu1");
  }
}
