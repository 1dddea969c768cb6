/**
  The content store (the project and blog-post records), slug resolution for the
  detail pages (`getStaticProps`), slug enumeration (`getStaticPaths`) and the
  not-found state of the detail pages.
*/
module Content {
  import opened Wrappers

  /**
    A content record. The long text bodies (`description`, `excerpt`,
    `fullContent`) are opaque strings; only the slugs matter to resolution.
  */
  datatype Record =
    | Project(slug: string, title: string, category: string, description: string,
              technologies: seq<string>, imagePlaceholder: string, fullContent: string)
    | Post(slug: string, title: string, date: string, excerpt: string, fullContent: string)

  const ProjectsData: seq<Record> := [
    Project("project-a", "Enterprise CRM Solution", "Software Development",
            "<description of project-a>", ["React", "Node.js", "PostgreSQL", "AWS"],
            "https://placehold.co/600x400/E0E0E0/333333?text=CRM+Solution", "<fullContent of project-a>"),
    Project("project-b", "E-commerce Analytics Dashboard", "Data Analysis",
            "<description of project-b>", ["Python", "Pandas", "Dash", "SQL", "Tableau"],
            "https://placehold.co/600x400/E0E0E0/333333?text=Analytics+Dashboard", "<fullContent of project-b>"),
    Project("project-c", "Mobile App for Event Management", "Mobile Development",
            "<description of project-c>", ["React Native", "Firebase", "Redux"],
            "https://placehold.co/600x400/E0E0E0/333333?text=Mobile+App", "<fullContent of project-c>")
  ]

  const BlogPostsData: seq<Record> := [
    Post("ai-cybersecurity-trends", "The Latest Trends in AI for Cybersecurity", "July 3, 2025",
         "<excerpt of ai-cybersecurity-trends>", "<fullContent of ai-cybersecurity-trends>"),
    Post("web3-future-internet", "Web3: The Decentralized Future of the Internet?", "June 20, 2025",
         "<excerpt of web3-future-internet>", "<fullContent of web3-future-internet>")
  ]

  /** `records.find((p) => p.slug === slug)`: the first record carrying `slug`, if any. */
  function FindBySlug(records: seq<Record>, slug: string): (r: Option<Record>)
    ensures r.None? <==> forall i :: 0 <= i < |records| ==> records[i].slug != slug
    ensures r.Some? ==> r.value in records && r.value.slug == slug
  {
    if records == [] then None
    else if records[0].slug == slug then Some(records[0])
    else FindBySlug(records[1..], slug)
  }

  /** `i` is the position of the first record carrying `slug`. */
  predicate IsFirstMatch(records: seq<Record>, slug: string, i: nat)
  {
    i < |records| && records[i].slug == slug
    && forall j :: 0 <= j < i ==> records[j].slug != slug
  }

  /** `find` returns the first match, not merely some match. */
  lemma {:induction false} FindReturnsFirstMatch(records: seq<Record>, slug: string, i: nat)
    requires IsFirstMatch(records, slug, i)
    ensures FindBySlug(records, slug) == Some(records[i])
    decreases i
  {
    if i > 0 {
      assert records[0].slug != slug;
      assert IsFirstMatch(records[1..], slug, i - 1) by {
        forall j | 0 <= j < i - 1 ensures records[1..][j].slug != slug {
          assert records[1..][j] == records[j + 1];
        }
      }
      FindReturnsFirstMatch(records[1..], slug, i - 1);
    }
  }

  /** `getStaticPaths`: the slug of every record, in store order. */
  function StaticPaths(records: seq<Record>): (slugs: seq<string>)
    ensures |slugs| == |records|
    ensures forall i :: 0 <= i < |records| ==> slugs[i] == records[i].slug
  {
    if records == [] then [] else [records[0].slug] + StaticPaths(records[1..])
  }

  /** No two records of a store share a slug. */
  predicate DistinctSlugs(records: seq<Record>)
  {
    forall i, j :: 0 <= i < j < |records| ==> records[i].slug != records[j].slug
  }

  /** Every enumerated path resolves to a record carrying that slug: no path is orphaned. */
  lemma EveryPathResolves(records: seq<Record>, i: nat)
    requires i < |StaticPaths(records)|
    ensures FindBySlug(records, StaticPaths(records)[i]).Some?
    ensures FindBySlug(records, StaticPaths(records)[i]).value.slug == StaticPaths(records)[i]
  {
    assert records[i].slug == StaticPaths(records)[i];
  }

  /** With distinct slugs, resolving the `i`-th path gives back exactly the `i`-th record. */
  lemma PathResolvesToItsRecord(records: seq<Record>, i: nat)
    requires DistinctSlugs(records)
    requires i < |records|
    ensures FindBySlug(records, StaticPaths(records)[i]) == Some(records[i])
  {
    FindReturnsFirstMatch(records, records[i].slug, i);
  }

  /** The slugs of the shown data are pairwise distinct. */
  lemma StoreSlugsDistinct()
    ensures DistinctSlugs(ProjectsData) && DistinctSlugs(BlogPostsData)
    ensures StaticPaths(ProjectsData) == ["project-a", "project-b", "project-c"]
    ensures StaticPaths(BlogPostsData) == ["ai-cybersecurity-trends", "web3-future-internet"]
  {
  }

  /** What a detail page shows: its record, or a not-found placeholder. */
  datatype DetailView = NotFound(notice: string) | Found(record: Record)

  /** `ProjectDetailPage`: a missing project is shown as "Project not found.". */
  function ProjectDetailPage(project: Option<Record>): (v: DetailView)
    ensures v.NotFound? <==> project.None?
    ensures v.NotFound? ==> v.notice == "Project not found."
    ensures v.Found? ==> v.record == project.value
  {
    match project
    case None => NotFound("Project not found.")
    case Some(p) => Found(p)
  }

  /** `BlogPostPage`: a missing post is shown as "Post not found.". */
  function BlogPostPage(post: Option<Record>): (v: DetailView)
    ensures v.NotFound? <==> post.None?
    ensures v.NotFound? ==> v.notice == "Post not found."
    ensures v.Found? ==> v.record == post.value
  {
    match post
    case None => NotFound("Post not found.")
    case Some(p) => Found(p)
  }

  /**
    The lookup by slug composed with `ProjectDetailPage`: the page shows the project
    carrying the slug when the store holds one, and the not-found placeholder
    otherwise.
  */
  lemma ProjectRouteResolves(slug: string)
    ensures var v := ProjectDetailPage(FindBySlug(ProjectsData, slug));
      && (v.Found? <==> slug in StaticPaths(ProjectsData))
      && (v.Found? ==> v.record.Project? && v.record.slug == slug && v.record in ProjectsData)
      && (v.NotFound? ==> v.notice == "Project not found.")
  {
    StoreSlugsDistinct();
  }

  /** The lookup by slug composed with `BlogPostPage`, likewise. */
  lemma BlogRouteResolves(slug: string)
    ensures var v := BlogPostPage(FindBySlug(BlogPostsData, slug));
      && (v.Found? <==> slug in StaticPaths(BlogPostsData))
      && (v.Found? ==> v.record.Post? && v.record.slug == slug && v.record in BlogPostsData)
      && (v.NotFound? ==> v.notice == "Post not found.")
  {
    StoreSlugsDistinct();
  }
}
