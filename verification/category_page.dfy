/** The URL-slug to display-title conversion of src/pages/CategoryPage.tsx:
    split on '-', upper-case each word's first character, join with spaces. */
module CategoryPage {
  import opened Common
  import opened Strings

  /** `word.charAt(0).toUpperCase() + word.slice(1)`. */
  function Capitalize(word: string): (r: string)
    ensures |r| == |word|
    ensures |word| > 0 ==> r[0] == UpperChar(word[0]) && r[1..] == word[1..]
  {
    if word == "" then "" else [UpperChar(word[0])] + word[1..]
  }

  function CapitalizeAll(words: seq<string>): (r: seq<string>)
    ensures |r| == |words|
    ensures forall i :: 0 <= i < |words| ==> r[i] == Capitalize(words[i])
  {
    seq(|words|, i requires 0 <= i < |words| => Capitalize(words[i]))
  }

  /** The title for the route parameter; an absent or empty one gives "". */
  function SlugToTitle(category: Option<string>): string {
    if category.None? || category.value == "" then ""
    else Join(CapitalizeAll(Split(category.value, '-')), ' ')
  }

  /** Reference definition, one character at a time: a hyphen becomes a space,
      a character at the start or right after a hyphen is upper-cased, and
      every other character is kept. */
  function TitleChar(slug: string, i: int): char
    requires 0 <= i < |slug|
  {
    if slug[i] == '-' then ' '
    else if i == 0 || slug[i - 1] == '-' then UpperChar(slug[i])
    else slug[i]
  }

  function TitleChars(slug: string): (r: string)
    ensures |r| == |slug|
    ensures forall i :: 0 <= i < |slug| ==> r[i] == TitleChar(slug, i)
  {
    seq(|slug|, i requires 0 <= i < |slug| => TitleChar(slug, i))
  }

  lemma TitleCharsOfWord(word: string)
    requires '-' !in word
    ensures TitleChars(word) == Capitalize(word)
  {
    if word != "" {
      assert TitleChars(word)[1..] == word[1..];
    }
  }

  lemma TitleCharsAtHyphen(a: string, b: string)
    ensures TitleChars(a + ['-'] + b) == TitleChars(a) + [' '] + TitleChars(b)
  {
    var s := a + ['-'] + b;
    var lhs, rhs := TitleChars(s), TitleChars(a) + [' '] + TitleChars(b);
    forall i | 0 <= i < |s|
      ensures lhs[i] == rhs[i]
    {
      if i < |a| {
        assert s[i] == a[i];
        assert i > 0 ==> s[i - 1] == a[i - 1];
      } else if i > |a| {
        var j := i - |a| - 1;
        assert s[i] == b[j];
        assert j > 0 ==> s[i - 1] == b[j - 1];
      }
    }
  }

  lemma {:induction false} JoinCapitalized(parts: seq<string>)
    requires |parts| >= 1
    requires forall i :: 0 <= i < |parts| ==> '-' !in parts[i]
    ensures Join(CapitalizeAll(parts), ' ') == TitleChars(Join(parts, '-'))
  {
    TitleCharsOfWord(parts[0]);
    if |parts| > 1 {
      assert CapitalizeAll(parts)[1..] == CapitalizeAll(parts[1..]);
      JoinCapitalized(parts[1..]);
      TitleCharsAtHyphen(parts[0], Join(parts[1..], '-'));
    }
  }

  /** The split-map-join pipeline agrees with the character-wise definition. */
  lemma SlugToTitleIsCharwise(slug: string)
    ensures SlugToTitle(Some(slug)) == TitleChars(slug)
  {
    if slug != "" {
      JoinSplit(slug, '-');
      JoinCapitalized(Split(slug, '-'));
    }
  }

  /** The title has the slug's length, a space wherever the slug has a hyphen,
      and no hyphen at all. */
  lemma TitleShape(slug: string)
    ensures |SlugToTitle(Some(slug))| == |slug|
    ensures forall i :: 0 <= i < |slug| && slug[i] == '-' ==> SlugToTitle(Some(slug))[i] == ' '
    ensures '-' !in SlugToTitle(Some(slug))
  {
    SlugToTitleIsCharwise(slug);
    var t := TitleChars(slug);
    forall i | 0 <= i < |t|
      ensures t[i] != '-'
    {
      assert t[i] == TitleChar(slug, i);
    }
  }

  /** Converting a title again changes nothing. */
  lemma SlugToTitleIdempotent(slug: string)
    ensures SlugToTitle(Some(SlugToTitle(Some(slug)))) == SlugToTitle(Some(slug))
  {
    TitleShape(slug);
    SlugToTitleIsCharwise(slug);
    var t := TitleChars(slug);
    SlugToTitleIsCharwise(t);
    forall i | 0 <= i < |t|
      ensures TitleChars(t)[i] == t[i]
    {
      assert t[i] != '-';
      if i > 0 {
        assert t[i - 1] != '-';
      }
    }
  }

  lemma HomeGardenChars()
    ensures TitleChars("home-garden") == "Home Garden"
  {
    assert "home-garden" == "home" + ['-'] + "garden";
    TitleCharsAtHyphen("home", "garden");
    TitleCharsOfWord("home");
    TitleCharsOfWord("garden");
    assert "Home" + [' '] + "Garden" == "Home Garden";
  }

  /** The header links "Home & Garden" to `/category/home-garden`, whose title
      comes back as "Home Garden": the page then asks for a category no
      product carries. */
  lemma HomeGardenTitle()
    ensures SlugToTitle(Some("home-garden")) == "Home Garden"
    ensures SlugToTitle(Some("home-garden")) != "Home & Garden"
  {
    SlugToTitleIsCharwise("home-garden");
    HomeGardenChars();
  }
}
