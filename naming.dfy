/**
 * The method-name tokeniser of gin.go (toSnakeCase): two leftmost,
 * non-overlapping regular-expression replacements written out as scans,
 * then '-' becomes '_' and the text is lowercased.
 */
module Naming {
  import opened Strings

  /**
   * First pass, `([A-Z])([A-Z][a-z])` replaced by `${1}_${2}`: an underscore
   * goes between the last two capitals of an acronym that runs into a word.
   */
  function SplitAcronyms(s: string): string
    decreases |s|
  {
    if |s| >= 3 && IsUpper(s[0]) && IsUpper(s[1]) && IsLower(s[2]) then
      [s[0], '_', s[1], s[2]] + SplitAcronyms(s[3..])
    else if s == [] then []
    else [s[0]] + SplitAcronyms(s[1..])
  }

  /**
   * Second pass, `([a-z0-9])([A-Z])` replaced by `${1}_${2}`: an underscore
   * goes between a lower-case letter or digit and the capital after it.
   */
  function SplitCamel(s: string): string
    decreases |s|
  {
    if |s| >= 2 && (IsLower(s[0]) || IsDigit(s[0])) && IsUpper(s[1]) then
      [s[0], '_', s[1]] + SplitCamel(s[2..])
    else if s == [] then []
    else [s[0]] + SplitCamel(s[1..])
  }

  /** strings.ReplaceAll(s, "-", "_"). */
  function DashToUnderscore(s: string): (r: string)
    ensures |r| == |s|
    ensures forall i :: 0 <= i < |r| ==> r[i] != '-'
    ensures forall i :: 0 <= i < |s| ==> r[i] == (if s[i] == '-' then '_' else s[i])
  {
    seq(|s|, i requires 0 <= i < |s| => if s[i] == '-' then '_' else s[i])
  }

  /** The snake-case form of a method name: no capital letter and no '-' survives. */
  function ToSnakeCase(input: string): (r: string)
    ensures forall i :: 0 <= i < |r| ==> !IsUpper(r[i]) && r[i] != '-'
  {
    ToLower(DashToUnderscore(SplitCamel(SplitAcronyms(input))))
  }

  /** The characters of a name other than the separators '_' and '-'. */
  function Letters(s: string): string
  {
    if s == [] then []
    else if s[0] == '_' || s[0] == '-' then Letters(s[1..])
    else [s[0]] + Letters(s[1..])
  }

  lemma {:induction false} LettersAppend(a: string, b: string)
    ensures Letters(a + b) == Letters(a) + Letters(b)
    decreases |a|
  {
    if a == [] {
      assert a + b == b;
    } else {
      assert (a + b)[0] == a[0];
      assert (a + b)[1..] == a[1..] + b;
      LettersAppend(a[1..], b);
    }
  }

  lemma {:induction false} SplitAcronymsOnlyInserts(s: string)
    ensures Letters(SplitAcronyms(s)) == Letters(s)
    decreases |s|
  {
    if |s| >= 3 && IsUpper(s[0]) && IsUpper(s[1]) && IsLower(s[2]) {
      SplitAcronymsOnlyInserts(s[3..]);
      LettersAppend([s[0], '_', s[1], s[2]], SplitAcronyms(s[3..]));
      assert s == [s[0], s[1], s[2]] + s[3..];
      LettersAppend([s[0], s[1], s[2]], s[3..]);
    } else if s != [] {
      SplitAcronymsOnlyInserts(s[1..]);
      LettersAppend([s[0]], SplitAcronyms(s[1..]));
      assert s == [s[0]] + s[1..];
      LettersAppend([s[0]], s[1..]);
    }
  }

  lemma {:induction false} SplitCamelOnlyInserts(s: string)
    ensures Letters(SplitCamel(s)) == Letters(s)
    decreases |s|
  {
    if |s| >= 2 && (IsLower(s[0]) || IsDigit(s[0])) && IsUpper(s[1]) {
      SplitCamelOnlyInserts(s[2..]);
      LettersAppend([s[0], '_', s[1]], SplitCamel(s[2..]));
      assert s == [s[0], s[1]] + s[2..];
      LettersAppend([s[0], s[1]], s[2..]);
    } else if s != [] {
      SplitCamelOnlyInserts(s[1..]);
      LettersAppend([s[0]], SplitCamel(s[1..]));
      assert s == [s[0]] + s[1..];
      LettersAppend([s[0]], s[1..]);
    }
  }

  lemma {:induction false} LettersOfDashToUnderscore(s: string)
    ensures Letters(DashToUnderscore(s)) == Letters(s)
    decreases |s|
  {
    if s != [] {
      assert DashToUnderscore(s) == [DashToUnderscore(s)[0]] + DashToUnderscore(s[1..]);
      LettersOfDashToUnderscore(s[1..]);
    }
  }

  lemma {:induction false} LettersOfToLower(s: string)
    ensures Letters(ToLower(s)) == ToLower(Letters(s))
    decreases |s|
  {
    if s != [] {
      assert ToLower(s) == [LowerChar(s[0])] + ToLower(s[1..]);
      LettersOfToLower(s[1..]);
      if s[0] != '_' && s[0] != '-' {
        assert ToLower([s[0]] + Letters(s[1..])) == [LowerChar(s[0])] + ToLower(Letters(s[1..]));
      }
    }
  }

  /**
   * The tokeniser only adds separators: apart from '_' and '-', the snake-case
   * form holds exactly the characters of the name, lowercased, in order.
   */
  lemma SnakeCaseKeepsLetters(input: string)
    ensures Letters(ToSnakeCase(input)) == ToLower(Letters(input))
  {
    var a := SplitAcronyms(input);
    var b := SplitCamel(a);
    var c := DashToUnderscore(b);
    SplitAcronymsOnlyInserts(input);
    SplitCamelOnlyInserts(a);
    LettersOfDashToUnderscore(b);
    LettersOfToLower(c);
  }

  /** A camel-case word: a capital followed by at least one lower-case letter or digit. */
  predicate IsWord(w: string) {
    |w| >= 2 && IsUpper(w[0]) && forall i :: 1 <= i < |w| ==> IsLower(w[i]) || IsDigit(w[i])
  }

  function Concat(ws: seq<string>): string
  {
    if ws == [] then "" else ws[0] + Concat(ws[1..])
  }

  function LowerAll(ws: seq<string>): (r: seq<string>)
    ensures |r| == |ws| && forall i :: 0 <= i < |ws| ==> r[i] == ToLower(ws[i])
  {
    seq(|ws|, i requires 0 <= i < |ws| => ToLower(ws[i]))
  }

  /** No position of `u` can start a match of the acronym pattern, whatever follows `u`. */
  predicate NoAcronymStart(u: string)
    decreases |u|
  {
    u == [] || ((!IsUpper(u[0]) || (|u| > 1 && !IsUpper(u[1]))) && NoAcronymStart(u[1..]))
  }

  lemma {:induction false} NoCapitalNoAcronymStart(t: string)
    requires forall k :: 0 <= k < |t| ==> !IsUpper(t[k])
    ensures NoAcronymStart(t)
    decreases |t|
  {
    if t != [] {
      NoCapitalNoAcronymStart(t[1..]);
    }
  }

  lemma {:induction false} AcronymsSkip(u: string, rest: string)
    requires NoAcronymStart(u)
    ensures SplitAcronyms(u + rest) == u + SplitAcronyms(rest)
    decreases |u|
  {
    if u == [] {
      assert u + rest == rest;
    } else {
      var s := u + rest;
      assert s[0] == u[0] && s[1..] == u[1..] + rest;
      assert !IsUpper(u[0]) || (|u| > 1 && !IsUpper(u[1]));
      assert |u| > 1 ==> s[1] == u[1];
      assert SplitAcronyms(s) == [u[0]] + SplitAcronyms(u[1..] + rest);
      AcronymsSkip(u[1..], rest);
      assert [u[0]] + (u[1..] + SplitAcronyms(rest)) == u + SplitAcronyms(rest);
    }
  }

  lemma {:induction false} AcronymsOfWords(ws: seq<string>)
    requires forall i :: 0 <= i < |ws| ==> IsWord(ws[i])
    ensures SplitAcronyms(Concat(ws)) == Concat(ws)
  {
    if ws != [] {
      AcronymsOfWords(ws[1..]);
      NoCapitalNoAcronymStart(ws[0][1..]);
      AcronymsSkip(ws[0], Concat(ws[1..]));
    }
  }

  lemma {:induction false} CamelSkip(u: string, rest: string)
    requires |u| >= 1 && (IsLower(u[|u| - 1]) || IsDigit(u[|u| - 1]))
    requires forall j :: 1 <= j < |u| ==> !IsUpper(u[j])
    requires rest == [] || IsUpper(rest[0])
    ensures SplitCamel(u + rest) == u + (if rest == [] then "" else "_") + SplitCamel(rest)
    decreases |u|
  {
    if |u| == 1 {
      CamelSplitAfter(u[0], rest);
      assert [u[0]] == u;
    } else {
      var s, sep := u + rest, if rest == [] then "" else "_";
      assert s[0] == u[0] && s[1] == u[1] && s[1..] == u[1..] + rest;
      assert SplitCamel(s) == [u[0]] + SplitCamel(u[1..] + rest);
      CamelSkip(u[1..], rest);
      assert [u[0]] + (u[1..] + sep + SplitCamel(rest)) == u + sep + SplitCamel(rest);
    }
  }

  /** The second pass splits after a lower-case letter or digit exactly when a capital follows. */
  lemma CamelSplitAfter(c: char, rest: string)
    requires IsLower(c) || IsDigit(c)
    requires rest == [] || IsUpper(rest[0])
    ensures SplitCamel([c] + rest) == [c] + (if rest == [] then "" else "_") + SplitCamel(rest)
  {
    var s := [c] + rest;
    if rest == [] {
      assert s == [c];
    } else {
      assert s[0] == c && s[1] == rest[0] && s[2..] == rest[1..];
      assert SplitCamel(rest) == [rest[0]] + SplitCamel(rest[1..]);
    }
  }

  lemma {:induction false} CamelOfWords(ws: seq<string>)
    requires |ws| >= 1
    requires forall i :: 0 <= i < |ws| ==> IsWord(ws[i])
    ensures SplitCamel(Concat(ws)) == Join(ws, "_")
  {
    var rest := Concat(ws[1..]);
    if |ws| == 1 {
      assert Concat(ws) == ws[0] + rest && rest == "";
      CamelSkip(ws[0], rest);
    } else {
      CamelOfWords(ws[1..]);
      assert rest == ws[1] + Concat(ws[2..]) && rest[0] == ws[1][0];
      CamelSkip(ws[0], rest);
      JoinCons(ws, "_");
    }
  }

  lemma {:induction false} JoinOfWordsHasNoDash(ws: seq<string>)
    requires forall i :: 0 <= i < |ws| ==> IsWord(ws[i])
    ensures '-' !in Join(ws, "_")
  {
    if |ws| >= 2 {
      JoinOfWordsHasNoDash(ws[1..]);
      JoinCons(ws, "_");
    }
  }

  lemma ToLowerAppend(a: string, b: string)
    ensures ToLower(a + b) == ToLower(a) + ToLower(b)
  {
    assert forall i :: 0 <= i < |a + b| ==> ToLower(a + b)[i] == (ToLower(a) + ToLower(b))[i];
  }

  lemma {:induction false} ToLowerOfJoin(ws: seq<string>)
    ensures ToLower(Join(ws, "_")) == Join(LowerAll(ws), "_")
  {
    if |ws| >= 2 {
      ToLowerOfJoin(ws[1..]);
      JoinCons(ws, "_");
      JoinCons(LowerAll(ws), "_");
      ToLowerAppend(ws[0], "_" + Join(ws[1..], "_"));
      ToLowerAppend("_", Join(ws[1..], "_"));
      assert LowerAll(ws)[1..] == LowerAll(ws[1..]);
    }
  }

  /**
   * A name made of camel-case words tokenises to those words, lowercased and
   * joined with '_' (both regular-expression passes only split at word starts).
   */
  lemma CamelWordsToSnakeCase(ws: seq<string>)
    requires |ws| >= 1
    requires forall i :: 0 <= i < |ws| ==> IsWord(ws[i])
    ensures ToSnakeCase(Concat(ws)) == Join(LowerAll(ws), "_")
  {
    AcronymsOfWords(ws);
    CamelOfWords(ws);
    JoinOfWordsHasNoDash(ws);
    var j := Join(ws, "_");
    assert DashToUnderscore(j) == j;
    ToLowerOfJoin(ws);
  }

  lemma LowerWordHasNoUnderscore(w: string)
    requires IsWord(w)
    ensures '_' !in ToLower(w)
  {
    var l := ToLower(w);
    forall k | 0 <= k < |l|
      ensures l[k] != '_'
    {
      assert l[k] == LowerChar(w[k]);
    }
  }

  /** ...and splitting that form on '_' gives back the lowercased words. */
  lemma CamelWordsTokens(ws: seq<string>)
    requires |ws| >= 1
    requires forall i :: 0 <= i < |ws| ==> IsWord(ws[i])
    ensures Split(ToSnakeCase(Concat(ws)), '_') == LowerAll(ws)
  {
    CamelWordsToSnakeCase(ws);
    forall i | 0 <= i < |ws|
      ensures '_' !in LowerAll(ws)[i]
    {
      LowerWordHasNoUnderscore(ws[i]);
    }
    SplitJoin(LowerAll(ws), '_');
  }

  /** The snake-case form of a name made of three capitalised words. */
  lemma ThreeWordsToSnakeCase(a: string, b: string, c: string)
    requires IsWord(a) && IsWord(b) && IsWord(c)
    ensures ToSnakeCase(a + b + c) == ToLower(a) + "_" + ToLower(b) + "_" + ToLower(c)
  {
    var ws := [a, b, c];
    assert Concat(ws) == a + b + c by {
      assert Concat(ws[2..]) == c;
    }
    assert Join(LowerAll(ws), "_") == ToLower(a) + "_" + ToLower(b) + "_" + ToLower(c) by {
      assert LowerAll(ws) == [ToLower(a), ToLower(b), ToLower(c)];
      assert Join([ToLower(b), ToLower(c)], "_") == ToLower(b) + "_" + ToLower(c);
    }
    CamelWordsToSnakeCase(ws);
  }

  lemma SnakeCaseGetBlogArticles(name: string)
    requires name == "GetBlogArticles"
    ensures ToSnakeCase(name) == "get_blog_articles"
  {
    assert name == "Get" + "Blog" + "Articles";
    assert IsWord("Get") && IsWord("Blog") && IsWord("Articles");
    ThreeWordsToSnakeCase("Get", "Blog", "Articles");
    LowerGetBlogArticles();
  }

  lemma LowerGetBlogArticles()
    ensures ToLower("Get") + "_" + ToLower("Blog") + "_" + ToLower("Articles") == "get_blog_articles"
  {
    assert ToLower("Get") == "get";
    assert ToLower("Blog") == "blog";
    assert ToLower("Articles") == "articles";
  }

  lemma SnakeCaseListV2Items(name: string)
    requires name == "ListV2Items"
    ensures ToSnakeCase(name) == "list_v2_items"
  {
    assert IsWord("List") && IsWord("V2") && IsWord("Items");
    assert name == "List" + "V2" + "Items";
    ThreeWordsToSnakeCase("List", "V2", "Items");
    LowerListV2Items();
  }

  lemma LowerListV2Items()
    ensures ToLower("List") + "_" + ToLower("V2") + "_" + ToLower("Items") == "list_v2_items"
  {
    assert ToLower("List") == "list";
    assert ToLower("V2") == "v2";
    assert ToLower("Items") == "items";
  }

  /** The first pass leaves text with no capital alone. */
  lemma AcronymsOfLower(t: string)
    requires forall k :: 0 <= k < |t| ==> !IsUpper(t[k])
    ensures SplitAcronyms(t) == t
  {
    NoCapitalNoAcronymStart(t);
    AcronymsSkip(t, "");
    assert t + "" == t;
  }

  /** The first pass splits an acronym from a following word before the word's capital. */
  lemma {:induction false} AcronymsOfAcronymWord(acr: string, w: string)
    requires |acr| >= 1 && forall k :: 0 <= k < |acr| ==> IsUpper(acr[k])
    requires IsWord(w) && IsLower(w[1])
    ensures SplitAcronyms(acr + w) == acr + "_" + w
    decreases |acr|
  {
    if |acr| == 1 {
      AcronymsOfCapitalWord(acr[0], w);
      assert [acr[0]] == acr;
    } else {
      var s := acr + w;
      assert s[0] == acr[0] && s[1] == acr[1] && s[1..] == acr[1..] + w;
      assert !IsLower(s[2]);
      AcronymsOfAcronymWord(acr[1..], w);
      assert [acr[0]] + (acr[1..] + "_" + w) == acr + "_" + w;
    }
  }

  /** The last capital of an acronym is split from the word after it. */
  lemma AcronymsOfCapitalWord(c: char, w: string)
    requires IsUpper(c) && IsWord(w) && IsLower(w[1])
    ensures SplitAcronyms([c] + w) == [c] + "_" + w
  {
    var s := [c] + w;
    assert s[0] == c && s[1] == w[0] && s[2] == w[1] && s[3..] == w[2..];
    AcronymsOfLower(w[2..]);
    assert [c, '_', w[0], w[1]] + w[2..] == [c] + "_" + w;
  }

  /** The second pass never splits after a character that is neither lower case nor a digit. */
  lemma {:induction false} CamelSkipUpper(u: string, rest: string)
    requires forall k :: 0 <= k < |u| ==> !IsLower(u[k]) && !IsDigit(u[k])
    ensures SplitCamel(u + rest) == u + SplitCamel(rest)
    decreases |u|
  {
    if u == [] {
      assert u + rest == rest;
    } else {
      var s := u + rest;
      assert s[0] == u[0] && s[1..] == u[1..] + rest;
      CamelSkipUpper(u[1..], rest);
      assert [u[0]] + (u[1..] + SplitCamel(rest)) == u + SplitCamel(rest);
    }
  }

  /**
   * An acronym running into a word is split before the word's capital, and
   * both are lowercased: HTTPServer becomes http_server.
   */
  lemma AcronymWordToSnakeCase(acr: string, w: string)
    requires |acr| >= 1 && forall k :: 0 <= k < |acr| ==> IsUpper(acr[k])
    requires IsWord(w) && IsLower(w[1])
    ensures ToSnakeCase(acr + w) == ToLower(acr) + "_" + ToLower(w)
  {
    var t := acr + "_" + w;
    AcronymsOfAcronymWord(acr, w);
    CamelOfAcronymWord(acr, w);
    DashOfAcronymWord(acr, w);
    SnakeCaseOfFixed(acr + w, t);
    ToLowerAroundUnderscore(acr, w);
  }

  /** Text the three passes leave alone is only lowercased. */
  lemma SnakeCaseOfFixed(s: string, t: string)
    requires SplitAcronyms(s) == t && SplitCamel(t) == t && DashToUnderscore(t) == t
    ensures ToSnakeCase(s) == ToLower(t)
  {
  }

  lemma ToLowerAroundUnderscore(a: string, b: string)
    ensures ToLower(a + "_" + b) == ToLower(a) + "_" + ToLower(b)
  {
    ToLowerAppend(a + "_", b);
    ToLowerAppend(a, "_");
  }

  /** The camel pass leaves an underscored acronym-word pair alone. */
  lemma CamelOfAcronymWord(acr: string, w: string)
    requires forall k :: 0 <= k < |acr| ==> IsUpper(acr[k])
    requires IsWord(w)
    ensures SplitCamel(acr + "_" + w) == acr + "_" + w
  {
    var u := acr + "_";
    forall k | 0 <= k < |u|
      ensures !IsLower(u[k]) && !IsDigit(u[k])
    {
      if k < |acr| {
        assert u[k] == acr[k];
      }
    }
    CamelSkipUpper(u, w);
    assert Concat([w]) == w;
    CamelOfWords([w]);
  }

  /** An underscored acronym-word pair holds no dash. */
  lemma DashOfAcronymWord(acr: string, w: string)
    requires forall k :: 0 <= k < |acr| ==> IsUpper(acr[k])
    requires IsWord(w)
    ensures DashToUnderscore(acr + "_" + w) == acr + "_" + w
  {
    var t := acr + "_" + w;
    forall k | 0 <= k < |t|
      ensures t[k] != '-'
    {
      if k < |acr| {
        assert t[k] == acr[k];
      } else if k > |acr| {
        assert t[k] == w[k - |acr| - 1];
      }
    }
  }

  lemma SnakeCaseHttpServer(name: string)
    requires name == "HTTPServer"
    ensures ToSnakeCase(name) == "http_server"
  {
    assert name == "HTTP" + "Server";
    assert IsWord("Server");
    AcronymWordToSnakeCase("HTTP", "Server");
    assert ToLower("HTTP") == "http" && ToLower("Server") == "server";
  }
}
