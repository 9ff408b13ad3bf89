/** The catalogue of workflow templates in src/lib/templates.ts: seven named
    patterns, looked up by name, searched by tag, listed in declaration
    order. The template bodies (the definition text and the usage example)
    are prose and code for a reader; only the fields the lookups touch are
    kept. */
module Templates {
  import opened Common

  datatype Template = Template(
    name: string,
    description: string,
    tags: seq<string>,
    estimatedCost: Option<string>)

  /** The catalogue as an object literal: keys in declaration order, each
      with its template. */
  const Catalogue: seq<(string, Template)> := [
    ("data_extraction", Template(
      "data_extraction",
      "Extract structured data from messy input (emails, PDFs, user messages)",
      ["data", "extraction", "normalization"],
      Some("$0.0001 per extraction"))),
    ("human_in_loop", Template(
      "human_in_loop",
      "Execute task with confidence-based human review",
      ["escalation", "review", "quality"],
      Some("Negligible (API calls only)"))),
    ("multi_agent_handoff", Template(
      "multi_agent_handoff",
      "Seamlessly hand off work between specialized agents",
      ["handoff", "collaboration", "specialization"],
      Some("Free (state storage)"))),
    ("stateful_conversation", Template(
      "stateful_conversation",
      "Maintain context across multiple agent sessions",
      ["state", "memory", "context"],
      Some("Free (state storage)"))),
    ("progressive_disclosure", Template(
      "progressive_disclosure",
      "Gather information incrementally with smart defaults",
      ["ux", "data-collection", "forms"],
      Some("$0.0001 per interpretation"))),
    ("error_recovery", Template(
      "error_recovery",
      "Gracefully handle failures and resume where you left off",
      ["resilience", "recovery", "debugging"],
      Some("Free (state storage)"))),
    ("cost_aware_execution", Template(
      "cost_aware_execution",
      "Track and optimize API costs per workflow",
      ["cost", "optimization", "observability"],
      Some("Free (state storage)")))
  ]

  /** The template under a key, if the key is one of the entries. */
  function Lookup(entries: seq<(string, Template)>, key: string): (r: Option<Template>)
    ensures r.Some? <==> key in Firsts(entries)
    ensures r.Some? ==> exists i :: 0 <= i < |entries| && entries[i] == (key, r.value)
  {
    if |entries| == 0 then None
    else if entries[0].0 == key then Some(entries[0].1)
    else
      var rest := Lookup(entries[1..], key);
      assert Firsts(entries) == [entries[0].0] + Firsts(entries[1..]);
      if rest.Some? then
        var i :| 0 <= i < |entries[1..]| && entries[1..][i] == (key, rest.value);
        assert entries[i + 1] == (key, rest.value);
        rest
      else rest
  }

  /** The templates carrying a tag, in catalogue order. */
  function WithTag(ts: seq<Template>, tag: string): (r: seq<Template>)
    ensures |r| <= |ts|
    ensures forall t :: t in r <==> t in ts && tag in t.tags
  {
    if |ts| == 0 then []
    else if tag in ts[0].tags then [ts[0]] + WithTag(ts[1..], tag)
    else WithTag(ts[1..], tag)
  }

  /** Filtering by tag keeps the catalogue order. */
  lemma {:induction false} WithTagKeepsOrder(ts: seq<Template>, tag: string)
    ensures Subsequence(WithTag(ts, tag), ts)
  {
    if |ts| > 0 {
      WithTagKeepsOrder(ts[1..], tag);
      var r := WithTag(ts, tag);
      if tag in ts[0].tags {
        assert r[0] == ts[0] && r[1..] == WithTag(ts[1..], tag);
      }
    }
  }

  /** getTemplate: the template filed under `name`, if any. */
  function Get(name: string): (r: Option<Template>)
    ensures r.Some? <==> name in Firsts(Catalogue)
    ensures r.Some? ==> exists i :: 0 <= i < |Catalogue| && Catalogue[i] == (name, r.value)
  {
    Lookup(Catalogue, name)
  }

  /** searchTemplates: the tag must match one of a template's tags exactly. */
  function Search(tag: string): (r: seq<Template>)
    ensures forall t :: t in r <==> t in Seconds(Catalogue) && tag in t.tags
  {
    WithTag(Seconds(Catalogue), tag)
  }

  /** listTemplates: the catalogue's keys, in order. */
  function List(): (names: seq<string>)
    ensures |names| == |Catalogue|
    ensures forall i :: 0 <= i < |names| ==> names[i] == Catalogue[i].0
  {
    Firsts(Catalogue)
  }

  /** The catalogue is well formed: seven templates, distinct keys, each
      filed under its own name. */
  lemma CatalogueWellFormed()
    ensures List() == ["data_extraction", "human_in_loop", "multi_agent_handoff", "stateful_conversation",
                       "progressive_disclosure", "error_recovery", "cost_aware_execution"]
    ensures forall i, j :: 0 <= i < j < |List()| ==> List()[i] != List()[j]
    ensures forall i :: 0 <= i < |Catalogue| ==> Catalogue[i].1.name == Catalogue[i].0
    ensures forall i :: 0 <= i < |Catalogue| ==> Catalogue[i].1.estimatedCost.Some?
  {
  }

  /** A name resolves exactly when it is listed, and then to the template
      of that name. */
  lemma GetIffListed(name: string)
    ensures Get(name).Some? <==> name in List()
    ensures Get(name).Some? ==> Get(name).value.name == name
  {
    CatalogueWellFormed();
  }

  /** A search finds precisely the templates that carry the tag. */
  lemma SearchExact(tag: string, t: Template)
    ensures t in Search(tag) <==> t in Seconds(Catalogue) && tag in t.tags
  {
  }

  /** A tag no template carries finds nothing. */
  lemma {:induction false} WithTagNone(ts: seq<Template>, tag: string)
    requires forall j :: 0 <= j < |ts| ==> tag !in ts[j].tags
    ensures WithTag(ts, tag) == []
  {
    if |ts| > 0 {
      WithTagNone(ts[1..], tag);
    }
  }

  /** A tag exactly one template carries finds that template alone. */
  lemma {:induction false} WithTagOne(ts: seq<Template>, tag: string, i: nat)
    requires i < |ts| && tag in ts[i].tags
    requires forall j :: 0 <= j < |ts| && j != i ==> tag !in ts[j].tags
    ensures WithTag(ts, tag) == [ts[i]]
  {
    if i == 0 {
      WithTagNone(ts[1..], tag);
    } else {
      WithTagOne(ts[1..], tag, i - 1);
    }
  }

  /** No two templates share a tag. */
  lemma TagsDisjoint()
    ensures forall i, j, k, l ::
      0 <= i < |Catalogue| && 0 <= j < |Catalogue| && i != j &&
      0 <= k < |Catalogue[i].1.tags| && 0 <= l < |Catalogue[j].1.tags| ==>
      Catalogue[i].1.tags[k] != Catalogue[j].1.tags[l]
  {
  }

  /** A search by any listed tag finds exactly one template: the one that
      carries it. */
  lemma TagsPartitionCatalogue(i: nat, k: nat)
    requires i < |Catalogue| && k < |Catalogue[i].1.tags|
    ensures Search(Catalogue[i].1.tags[k]) == [Catalogue[i].1]
  {
    TagsDisjoint();
    var tag := Catalogue[i].1.tags[k];
    var vs := Seconds(Catalogue);
    forall j | 0 <= j < |vs| && j != i
      ensures tag !in vs[j].tags
    {
      assert forall l :: 0 <= l < |vs[j].tags| ==> vs[j].tags[l] != tag;
    }
    WithTagOne(vs, tag, i);
  }

  /** A search keeps the catalogue order and never returns a template
      twice. */
  lemma SearchOrderedNoDuplicates(tag: string)
    ensures Subsequence(Search(tag), Seconds(Catalogue))
    ensures forall a, b :: 0 <= a < b < |Search(tag)| ==> Search(tag)[a] != Search(tag)[b]
  {
    WithTagKeepsOrder(Seconds(Catalogue), tag);
    var vs := Seconds(Catalogue);
    if exists i, k :: 0 <= i < |Catalogue| && 0 <= k < |Catalogue[i].1.tags| && Catalogue[i].1.tags[k] == tag {
      var i, k :| 0 <= i < |Catalogue| && 0 <= k < |Catalogue[i].1.tags| && Catalogue[i].1.tags[k] == tag;
      TagsPartitionCatalogue(i, k);
    } else {
      forall j | 0 <= j < |vs|
        ensures tag !in vs[j].tags
      {
        assert forall l :: 0 <= l < |vs[j].tags| ==> vs[j].tags[l] != tag;
      }
      WithTagNone(vs, tag);
    }
  }

  /** Searching needs a whole tag, compared case-sensitively: a search
      finds nothing exactly when the string is none of the templates' tags
      (so the empty string, a proper prefix of a tag or a tag written in
      other capitals finds nothing). */
  lemma SearchNeedsWholeTag(tag: string)
    ensures Search(tag) == [] <==>
      forall i, k :: 0 <= i < |Catalogue| && 0 <= k < |Catalogue[i].1.tags| ==> Catalogue[i].1.tags[k] != tag
  {
    var vs := Seconds(Catalogue);
    if exists i, k :: 0 <= i < |Catalogue| && 0 <= k < |Catalogue[i].1.tags| && Catalogue[i].1.tags[k] == tag {
      var i, k :| 0 <= i < |Catalogue| && 0 <= k < |Catalogue[i].1.tags| && Catalogue[i].1.tags[k] == tag;
      TagsPartitionCatalogue(i, k);
    } else {
      forall j | 0 <= j < |vs|
        ensures tag !in vs[j].tags
      {
        assert forall l :: 0 <= l < |vs[j].tags| ==> vs[j].tags[l] != tag;
      }
      WithTagNone(vs, tag);
    }
  }
}
