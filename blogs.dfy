/**
 * The administrators' blog list: the tag picker of the editing form, the
 * check made before a post is saved, the search over titles, descriptions,
 * authors and tags, paging by ten, and the local removal after the server
 * deleted a post.
 */
module Blogs {
  import opened Seqs
  import opened Strings
  import opened Listing

  const BlogsPerPage := 10

  datatype Tag = Tag(id: int, name: string)

  /** A post as the list holds it; `author` is `user?.name`, `tags` None when the field is missing. */
  datatype Blog = Blog(id: int, title: string, description: string, author: Option<string>, tags: Option<seq<Tag>>)

  /** The editing form: its texts and the ids of the chosen tags. */
  datatype BlogForm = BlogForm(title: string, description: string, content: string, tags: seq<int>)

  /** `handleTagToggle`: a chosen tag is dropped (every copy of it), any other is appended. */
  function ToggledTag(tags: seq<int>, tagId: int): (r: seq<int>)
    ensures tagId in r <==> tagId !in tags
    ensures forall t :: t != tagId ==> (t in r <==> t in tags)
  {
    if tagId in tags then Filter(tags, (id: int) => id != tagId) else tags + [tagId]
  }

  /** Toggling twice restores which tags are chosen; for a tag that was not chosen it restores the list itself. */
  lemma ToggleTwice(tags: seq<int>, tagId: int)
    ensures forall t :: t in ToggledTag(ToggledTag(tags, tagId), tagId) <==> t in tags
    ensures tagId !in tags ==> ToggledTag(ToggledTag(tags, tagId), tagId) == tags
  {
    if tagId !in tags {
      var once := tags + [tagId];
      assert once[..|once| - 1] == tags;
      FilterKeepsAll(tags, (id: int) => id != tagId);
    }
  }

  predicate Distinct(s: seq<int>)
  {
    forall i, j :: 0 <= i < j < |s| ==> s[i] != s[j]
  }

  /** The toggle never introduces a duplicate. */
  lemma ToggleKeepsDistinct(tags: seq<int>, tagId: int)
    requires Distinct(tags)
    ensures Distinct(ToggledTag(tags, tagId))
  {
    if tagId in tags {
      DistinctFilter(tags, (id: int) => id != tagId);
    } else {
      AppendDistinct(tags, tagId);
    }
  }

  lemma AppendDistinct(s: seq<int>, x: int)
    requires Distinct(s) && x !in s
    ensures Distinct(s + [x])
  {
    var r := s + [x];
    forall i, j | 0 <= i < j < |r|
      ensures r[i] != r[j]
    {
      if j == |s| {
        assert r[i] == s[i];
      }
    }
  }

  lemma {:induction false} DistinctFilter(s: seq<int>, p: int -> bool)
    requires Distinct(s)
    ensures Distinct(Filter(s, p))
    decreases |s|
  {
    if |s| > 0 {
      var init := s[..|s| - 1];
      var last := s[|s| - 1];
      assert s == init + [last];
      assert Distinct(init);
      DistinctFilter(init, p);
      assert last !in init;
      if p(last) {
        assert Filter(s, p) == Filter(init, p) + [last];
        AppendDistinct(Filter(init, p), last);
      } else {
        assert Filter(s, p) == Filter(init, p);
      }
    }
  }

  /** `handleSubmit`'s check: title, description and content must all have non-blank text. */
  function CanSubmit(form: BlogForm): (ok: bool)
    ensures ok <==> !IsBlank(form.title) && !IsBlank(form.description) && !IsBlank(form.content)
  {
    TrimEmptyIffBlank(form.title);
    TrimEmptyIffBlank(form.description);
    TrimEmptyIffBlank(form.content);
    !(Trim(form.title) == "" || Trim(form.description) == "" || Trim(form.content) == "")
  }

  /** `handleDelete`: the post with that id goes; every other post stays, in order. */
  function WithoutBlog(blogs: seq<Blog>, blogId: int): (r: seq<Blog>)
    ensures forall b :: b in r <==> b in blogs && b.id != blogId
    ensures IsSubsequence(r, blogs)
  {
    var keep := (b: Blog) => b.id != blogId;
    FilterIsSubsequence(blogs, keep);
    Filter(blogs, keep)
  }

  /** Ignoring case, the text contains the term. */
  predicate Mentions(text: string, term: string)
  {
    Contains(Lower(text), Lower(term))
  }

  /** `blog.tags?.some(tag => …)`: a missing tag list matches nothing. */
  predicate AnyTagMentions(tags: Option<seq<Tag>>, term: string)
  {
    tags.Some? && AnyMentions(tags.value, term)
  }

  function AnyMentions(tags: seq<Tag>, term: string): (b: bool)
    ensures b <==> exists i :: 0 <= i < |tags| && Mentions(tags[i].name, term)
    decreases |tags|
  {
    if |tags| == 0 then false
    else
      var rest := AnyMentions(tags[1..], term);
      assert forall i :: 1 <= i < |tags| ==> tags[i] == tags[1..][i - 1];
      Mentions(tags[0].name, term) || rest
  }

  /** The search: title, description, author's name or some tag's name contains the term, ignoring case. */
  predicate MatchesBlog(blog: Blog, term: string)
  {
    Mentions(blog.title, term) || Mentions(blog.description, term) ||
    (blog.author.Some? && Mentions(blog.author.value, term)) || AnyTagMentions(blog.tags, term)
  }

  /** `filteredBlogs`. */
  function FilteredBlogs(blogs: seq<Blog>, term: string): (r: seq<Blog>)
    ensures forall b :: b in r <==> b in blogs && MatchesBlog(b, term)
    ensures IsSubsequence(r, blogs)
  {
    var keep := (b: Blog) => MatchesBlog(b, term);
    FilterIsSubsequence(blogs, keep);
    Filter(blogs, keep)
  }

  /** A post whose tag is named by the term is found, whatever the case of the term. */
  lemma TagNameFinds(blog: Blog, i: int, term: string)
    requires blog.tags.Some? && 0 <= i < |blog.tags.value|
    requires Lower(term) == Lower(blog.tags.value[i].name)
    ensures MatchesBlog(blog, term)
  {
    assert OccursAt(Lower(blog.tags.value[i].name), Lower(term), 0);
  }

  /** The empty search lists every post. */
  lemma EmptySearchListsEveryPost(blogs: seq<Blog>)
    ensures FilteredBlogs(blogs, "") == blogs
  {
    forall b | b in blogs
      ensures MatchesBlog(b, "")
    {
      assert OccursAt(Lower(b.title), Lower(""), 0);
    }
    FilterKeepsAll(blogs, (b: Blog) => MatchesBlog(b, ""));
  }

  /** `currentBlogs`: the current page's slice of the filtered posts. */
  function CurrentBlogs(filtered: seq<Blog>, currentPage: int): seq<Blog>
  {
    var indexOfLastBlog := currentPage * BlogsPerPage;
    var indexOfFirstBlog := indexOfLastBlog - BlogsPerPage;
    Slice(filtered, indexOfFirstBlog, indexOfLastBlog)
  }

  /** `totalPages`. */
  function BlogPages(filtered: seq<Blog>): nat
  {
    PageCount(|filtered|, BlogsPerPage)
  }

  /** Page p from the first on holds the filtered posts from (p - 1) * 10 on, at most ten of them. */
  lemma CurrentBlogsSpec(filtered: seq<Blog>, currentPage: int)
    requires currentPage >= 1
    ensures var page := CurrentBlogs(filtered, currentPage);
      |page| <= BlogsPerPage &&
      forall k :: 0 <= k < |page| ==> page[k] == filtered[(currentPage - 1) * BlogsPerPage + k]
  {
    MulStep(currentPage - 1, BlogsPerPage);
    assert CurrentBlogs(filtered, currentPage) == PageOf(filtered, currentPage, BlogsPerPage);
    PageContents(filtered, currentPage, BlogsPerPage);
  }

  /** Every filtered post is on one of the pages 1 .. totalPages, and there are pages exactly when there are posts. */
  lemma EveryPostOnAPage(filtered: seq<Blog>, i: int)
    requires 0 <= i < |filtered|
    ensures 1 <= i / BlogsPerPage + 1 <= BlogPages(filtered)
    ensures filtered[i] in CurrentBlogs(filtered, i / BlogsPerPage + 1)
  {
    EveryItemOnAPage(filtered, BlogsPerPage, i);
    var page := i / BlogsPerPage + 1;
    MulStep(page - 1, BlogsPerPage);
    assert CurrentBlogs(filtered, page) == PageOf(filtered, page, BlogsPerPage);
  }
}
