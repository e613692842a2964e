/**
 * The age comparison `check_outdated_image(env)` of jb.py prepares: the
 * local image's age is read from the `CREATED` column of `docker images`,
 * the remote image's from the published time the registry listing gives,
 * and both are brought to the form "number unit" before they are compared.
 * The listing of the images, the prompt interval kept in the stash, the
 * comparison itself and the question to the user are not part of this model.
 */
module ImageAge {
  import opened Wrappers
  import opened Strings

  /** One row of the local image table: its `TAG` and `CREATED` columns. */
  datatype LocalImage = LocalImage(tag: string, created: string)

  /** One row of the remote image listing, reduced to the tag and its human-readable publication time. */
  datatype RemoteImage = RemoteImage(tag: string, humanReadable: string)

  /** The words Docker and the registry use in place of "1". */
  predicate IsArticle(w: string) {
    w == "an" || w == "a"
  }

  /** Python's `xs[:-1]`. */
  function DropLast(xs: seq<string>): (r: seq<string>)
    ensures |xs| > 0 ==> xs == r + [xs[|xs| - 1]]
    ensures |xs| == 0 ==> r == []
  {
    if |xs| == 0 then [] else xs[..|xs| - 1]
  }

  /** Python's `xs[2:-1]`. */
  function Middle(xs: seq<string>): (r: seq<string>)
    ensures |xs| >= 3 ==> xs == xs[..2] + r + [xs[|xs| - 1]]
    ensures |xs| < 3 ==> r == []
  {
    if |xs| < 3 then [] else xs[2..|xs| - 1]
  }

  /**
   * The local age of an image: the words of its `CREATED` column without
   * the final "ago"; when the second word is an article, the article is
   * deleted if more words follow, the first word becomes "1" and the second
   * is made plural. Fewer than two words raise.
   */
  function LocalAgeOf(created: string): Result<seq<string>> {
    var age := DropLast(SplitWhitespace(created, IsStrSpace));
    if |age| < 2 then Err(IndexError)
    else if IsArticle(age[1]) then
      var kept := if |age| > 2 then [age[0]] + age[2..] else age;
      Ok(["1", kept[1] + "s"] + kept[2..])
    else Ok(age)
  }

  /**
   * The local age `check_outdated_image` keeps: the last image whose tag
   * contains `env` decides; an image that raises stops the scan.
   */
  function LocalAge(env: string, images: seq<LocalImage>): Result<Option<seq<string>>> {
    if images == [] then Ok(None)
    else
      var last := images[|images| - 1];
      match LocalAge(env, images[..|images| - 1])
      case Err(e) => Err(e)
      case Ok(prev) =>
        if Contains(last.tag, env) then
          match LocalAgeOf(last.created)
          case Err(e) => Err(e)
          case Ok(age) => Ok(Some(age))
        else Ok(prev)
  }

  /** The loop of `check_outdated_image` over the local images. */
  method ScanLocalImages(env: string, images: seq<LocalImage>) returns (r: Result<Option<seq<string>>>)
    ensures r == LocalAge(env, images)
  {
    var age: Option<seq<string>> := None;
    for i := 0 to |images|
      invariant LocalAge(env, images[..i]) == Ok(age)
    {
      assert images[..i + 1][..i] == images[..i];
      var image := images[i];
      if Contains(image.tag, env) {
        var words := SplitWhitespace(image.created, IsStrSpace);
        var localAge := DropLast(words);
        if |localAge| < 2 {
          assert LocalAge(env, images[..i + 1]) == Err(IndexError);
          LocalAgeErrSticks(env, images, i + 1);
          assert images[..|images|] == images;
          return Err(IndexError);
        }
        if localAge[1] == "an" || localAge[1] == "a" {
          if |localAge| > 2 {
            localAge := [localAge[0]] + localAge[2..];
          }
          localAge := ["1", localAge[1] + "s"] + localAge[2..];
        }
        age := Some(localAge);
      }
    }
    assert images[..|images|] == images;
    r := Ok(age);
  }

  /** Once the scan has raised, the images after do not matter. */
  lemma {:induction false} LocalAgeErrSticks(env: string, images: seq<LocalImage>, n: nat)
    requires 0 < n <= |images| && LocalAge(env, images[..n]).Err?
    ensures LocalAge(env, images) == LocalAge(env, images[..n])
    decreases |images| - n
  {
    if n == |images| {
      assert images[..n] == images;
    } else {
      assert images[..n + 1][..n] == images[..n];
      LocalAgeErrSticks(env, images, n + 1);
    }
  }

  /** No image is found exactly when no tag contains `env` and nothing raised. */
  lemma {:induction false} LocalAgeNone(env: string, images: seq<LocalImage>)
    ensures LocalAge(env, images) == Ok(None)
      <==> forall i :: 0 <= i < |images| ==> !Contains(images[i].tag, env)
    decreases |images|
  {
    if images != [] {
      var init := images[..|images| - 1];
      LocalAgeNone(env, init);
      assert forall i :: 0 <= i < |init| ==> init[i] == images[i];
    }
  }

  /** A found age is that of the last image whose tag contains `env`; `i` is that image. */
  lemma {:induction false} LocalAgeLastMatch(env: string, images: seq<LocalImage>, age: seq<string>) returns (i: nat)
    requires LocalAge(env, images) == Ok(Some(age))
    ensures i < |images| && Contains(images[i].tag, env) && LocalAgeOf(images[i].created) == Ok(age)
    ensures forall j :: i < j < |images| ==> !Contains(images[j].tag, env)
    decreases |images|
  {
    var n := |images| - 1;
    var init := images[..n];
    LocalAgeFound(env, images, age);
    if Contains(images[n].tag, env) {
      i := n;
    } else {
      i := LocalAgeLastMatch(env, init, age);
      LastMatchExtends(env, images, age, i);
    }
  }

  /** A last match before a final image that does not match stays the last match. */
  lemma LastMatchExtends(env: string, images: seq<LocalImage>, age: seq<string>, i: nat)
    requires images != [] && !Contains(images[|images| - 1].tag, env)
    requires var init := images[..|images| - 1];
      i < |init| && Contains(init[i].tag, env) && LocalAgeOf(init[i].created) == Ok(age)
      && forall j :: i < j < |init| ==> !Contains(init[j].tag, env)
    ensures i < |images| && Contains(images[i].tag, env) && LocalAgeOf(images[i].created) == Ok(age)
    ensures forall j :: i < j < |images| ==> !Contains(images[j].tag, env)
  {
    var init := images[..|images| - 1];
    assert images[i] == init[i];
    forall j | i < j < |images| ensures !Contains(images[j].tag, env) {
      if j < |init| {
        assert images[j] == init[j];
      }
    }
  }

  /** One step of `LocalAge` back from a found age. */
  lemma LocalAgeFound(env: string, images: seq<LocalImage>, age: seq<string>)
    requires LocalAge(env, images) == Ok(Some(age))
    ensures images != []
    ensures Contains(images[|images| - 1].tag, env) ==> LocalAgeOf(images[|images| - 1].created) == Ok(age)
    ensures !Contains(images[|images| - 1].tag, env) ==> LocalAge(env, images[..|images| - 1]) == Ok(Some(age))
  {
  }

  /** `tag_dict` as the loop over the remote images leaves it: each tag's text from its last row. */
  function TagDict(rows: seq<RemoteImage>): map<string, string> {
    if rows == [] then map[]
    else
      var last := rows[|rows| - 1];
      TagDict(rows[..|rows| - 1])[last.tag := Published(last)]
  }

  function Published(row: RemoteImage): string {
    "(" + row.tag + ") published " + row.humanReadable
  }

  /** The loop of `check_outdated_image` that builds `tag_dict`. */
  method BuildTagDict(rows: seq<RemoteImage>) returns (tagDict: map<string, string>)
    ensures tagDict == TagDict(rows)
  {
    tagDict := map[];
    for i := 0 to |rows|
      invariant tagDict == TagDict(rows[..i])
    {
      assert rows[..i + 1][..i] == rows[..i];
      var row := rows[i];
      tagDict := tagDict[row.tag := "(" + row.tag + ") published " + row.humanReadable];
    }
    assert rows[..|rows|] == rows;
  }

  /** A tag is in `tag_dict` exactly when some row has it, and its text comes from the last such row. */
  lemma {:induction false} TagDictLast(rows: seq<RemoteImage>, tag: string)
    ensures tag in TagDict(rows) <==> exists i :: 0 <= i < |rows| && rows[i].tag == tag
    ensures tag in TagDict(rows) ==> exists i :: (0 <= i < |rows| && rows[i].tag == tag
      && TagDict(rows)[tag] == Published(rows[i])
      && forall j :: i < j < |rows| ==> rows[j].tag != tag)
    decreases |rows|
  {
    if rows != [] {
      var n := |rows| - 1;
      var init := rows[..n];
      TagDictLast(init, tag);
      assert forall i :: 0 <= i < n ==> init[i] == rows[i];
      if rows[n].tag != tag && tag in TagDict(init) {
        var i :| 0 <= i < |init| && init[i].tag == tag
          && TagDict(init)[tag] == Published(init[i])
          && forall j :: i < j < |init| ==> init[j].tag != tag;
        assert rows[i].tag == tag && forall j :: i < j < |rows| ==> rows[j].tag != tag;
      }
    }
  }

  /**
   * The remote age of `env`'s image: the words of its `tag_dict` text
   * after "(tag) published" and before the final word; a leading article
   * becomes "1" and the unit after it is made plural. A tag the listing
   * lacks raises `KeyError`, too few words `IndexError`.
   */
  function RemoteAge(env: string, tagDict: map<string, string>): Result<seq<string>> {
    if env !in tagDict then Err(KeyError)
    else
      var age := Middle(SplitWhitespace(tagDict[env], IsStrSpace));
      if |age| == 0 then Err(IndexError)
      else if IsArticle(age[0]) then
        if |age| < 2 then Err(IndexError) else Ok(["1", age[1] + "s"] + age[2..])
      else Ok(age)
  }

  /**
   * What `check_outdated_image(env)` hands to the comparison: nothing when
   * no local image matches, otherwise the local and the remote age.
   */
  method CheckOutdatedImage(env: string, images: seq<LocalImage>, rows: seq<RemoteImage>)
    returns (r: Result<Option<(seq<string>, seq<string>)>>)
    ensures LocalAge(env, images).Err? ==> r == Err(LocalAge(env, images).error)
    ensures LocalAge(env, images) == Ok(None) ==> r == Ok(None)
    ensures LocalAge(env, images).Ok? && LocalAge(env, images).value.Some? ==>
      r == if RemoteAge(env, TagDict(rows)).Err? then Err(RemoteAge(env, TagDict(rows)).error)
        else Ok(Some((LocalAge(env, images).value.value, RemoteAge(env, TagDict(rows)).value)))
  {
    var localAge := ScanLocalImages(env, images);
    if localAge.Err? {
      return Err(localAge.error);
    }
    if localAge.value.None? {
      return Ok(None);
    }
    var tagDict := BuildTagDict(rows);
    var remote := RemoteAge(env, tagDict);
    if remote.Err? {
      return Err(remote.error);
    }
    r := Ok(Some((localAge.value.value, remote.value)));
  }

  /** A word free of whitespace. */
  predicate Word(w: string) {
    w != [] && NoSpace(w, IsStrSpace)
  }

  /** Docker's "About an hour ago" and "About a minute ago" become "1 hours" and "1 minutes". */
  lemma LocalArticleForm(article: string, unit: string)
    requires IsArticle(article) && Word(unit)
    ensures LocalAgeOf(Join(["About", article, unit, "ago"], " ")) == Ok(["1", unit + "s"])
  {
    var parts := ["About", article, unit, "ago"];
    assert Word("About") && Word(article) && Word("ago");
    SplitWhitespaceWords(parts, IsStrSpace);
    var age := DropLast(SplitWhitespace(Join(parts, " "), IsStrSpace));
    assert age == ["About", article, unit];
    var kept := [age[0]] + age[2..];
    assert kept == ["About", unit];
    assert LocalAgeOf(Join(parts, " ")) == Ok(["1", kept[1] + "s"] + kept[2..]);
    assert ["1", kept[1] + "s"] + kept[2..] == ["1", unit + "s"];
    assert Join(parts, " ") == Join(["About", article, unit, "ago"], " ");
  }

  /** Docker's "2 days ago" stays "2 days". */
  lemma LocalCountForm(count: string, unit: string)
    requires Word(count) && Word(unit) && !IsArticle(unit)
    ensures LocalAgeOf(Join([count, unit, "ago"], " ")) == Ok([count, unit])
  {
    var parts := [count, unit, "ago"];
    assert Word("ago");
    SplitWhitespaceWords(parts, IsStrSpace);
    assert DropLast(parts) == [count, unit];
  }

  /** The registry's "an hour ago" becomes "1 hours", for any tag of one word. */
  lemma RemoteArticleForm(tag: string, article: string, unit: string)
    requires Word("(" + tag + ")") && IsArticle(article) && Word(unit)
    ensures RemoteAge(tag, map[tag := Published(RemoteImage(tag, Join([article, unit, "ago"], " ")))]) == Ok(["1", unit + "s"])
  {
    var parts := [article, unit, "ago"];
    assert Word(article) && Word("ago");
    PublishedWords(tag, parts);
    var all := ["(" + tag + ")", "published"] + parts;
    var age := Middle(all);
    assert age == [article, unit];
    assert ["1", age[1] + "s"] + age[2..] == ["1", unit + "s"];
  }

  /** The registry's "3 days ago" stays "3 days", for any tag of one word. */
  lemma RemoteCountForm(tag: string, count: string, unit: string)
    requires Word("(" + tag + ")") && Word(count) && !IsArticle(count) && Word(unit)
    ensures RemoteAge(tag, map[tag := Published(RemoteImage(tag, Join([count, unit, "ago"], " ")))]) == Ok([count, unit])
  {
    var parts := [count, unit, "ago"];
    assert Word("ago");
    PublishedWords(tag, parts);
    var all := ["(" + tag + ")", "published"] + parts;
    assert Middle(all) == [count, unit];
  }

  /** The text of a row splits into "(tag)", "published" and the words of its time. */
  lemma PublishedWords(tag: string, words: seq<string>)
    requires Word("(" + tag + ")") && |words| >= 1
    requires forall k :: 0 <= k < |words| ==> Word(words[k])
    ensures SplitWhitespace(Published(RemoteImage(tag, Join(words, " "))), IsStrSpace)
      == ["(" + tag + ")", "published"] + words
  {
    var t := "(" + tag + ")";
    var rest := Join(words, " ");
    var all := [t, "published"] + words;
    PublishedText(tag, rest);
    JoinTwoMore(t, "published", words);
    RowWords(t, words);
    SplitWhitespaceWords(all, IsStrSpace);
  }

  lemma RowWords(t: string, words: seq<string>)
    requires Word(t)
    requires forall k :: 0 <= k < |words| ==> Word(words[k])
    ensures forall k :: 0 <= k < |[t, "published"] + words| ==>
      ([t, "published"] + words)[k] != [] && NoSpace(([t, "published"] + words)[k], IsStrSpace)
  {
    var all := [t, "published"] + words;
    WordPublished();
    forall k | 0 <= k < |all| ensures Word(all[k]) {
      if k == 0 {
        assert all[k] == t;
      } else if k == 1 {
        assert all[k] == "published";
      } else {
        assert all[k] == words[k - 2];
      }
    }
  }

  lemma PublishedText(tag: string, humanReadable: string)
    ensures Published(RemoteImage(tag, humanReadable)) == ("(" + tag + ")") + " " + ("published" + " " + humanReadable)
  {
    assert ") published " == ")" + " " + ("published" + " ");
  }

  lemma JoinTwoMore(t: string, w: string, words: seq<string>)
    requires |words| >= 1
    ensures Join([t, w] + words, " ") == t + " " + (w + " " + Join(words, " "))
  {
    var all := [t, w] + words;
    assert all[1..] == [w] + words;
    assert ([w] + words)[1..] == words;
    assert Join(all, " ") == t + " " + Join([w] + words, " ");
    assert Join([w] + words, " ") == w + " " + Join(words, " ");
  }

  lemma WordPublished()
    ensures Word("published")
  {
  }

  /** An image tag absent from the remote listing makes `check_outdated_image` fail with `KeyError`. */
  lemma RemoteAgeMissingTag(env: string, rows: seq<RemoteImage>)
    requires forall i :: 0 <= i < |rows| ==> rows[i].tag != env
    ensures RemoteAge(env, TagDict(rows)) == Err(KeyError)
  {
    TagDictLast(rows, env);
  }
}
