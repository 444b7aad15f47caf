/**
 * The `post_save` rules for repositories, distributions, collections and
 * namespace metadata. A handler that saves the instance it was given
 * triggers its own `post_save` again, with `created` false; that dispatch is
 * written out.
 */
module PostSave {
  import opened Wrappers

  /** An AnsibleRepository row, reduced to the field its handler touches. */
  class Repository {
    /** `retain_repo_versions`, a nullable positive integer. */
    var retainRepoVersions: Option<nat>

    constructor(retainRepoVersions: Option<nat>)
      ensures this.retainRepoVersions == retainRepoVersions
    {
      this.retainRepoVersions := retainRepoVersions;
    }

    /** `repository.save()` followed by its `post_save` signal. */
    method Save(created: bool)
      modifies this
      decreases if created then 1 else 0, 1
      ensures retainRepoVersions == if created && old(retainRepoVersions).None? then Some(1) else old(retainRepoVersions)
    {
      EnsureRetainRepoVersions(created);
    }

    /**
     * `ensure_retain_repo_versions_on_repository`: a newly created repository
     * with no `retain_repo_versions` gets 1 and is saved again; any other save
     * leaves the field alone.
     */
    method EnsureRetainRepoVersions(created: bool)
      modifies this
      decreases if created then 1 else 0, 0
      ensures retainRepoVersions == if created && old(retainRepoVersions).None? then Some(1) else old(retainRepoVersions)
    {
      if created && retainRepoVersions.None? {
        retainRepoVersions := Some(1);
        Save(false);
      }
    }
  }

  /** An AnsibleDistribution row, reduced to its content guard. */
  class Distribution {
    /** The id of `content_guard`, if any. */
    var contentGuard: Option<nat>

    constructor(contentGuard: Option<nat>)
      ensures this.contentGuard == contentGuard
    {
      this.contentGuard := contentGuard;
    }

    /**
     * `distribution.save()` followed by its `post_save` signal; `firstGuard`
     * is what `ContentRedirectContentGuard.objects.first()` returns.
     */
    method Save(created: bool, firstGuard: Option<nat>)
      modifies this
      decreases if created then 1 else 0, 1
      ensures contentGuard == if created && old(contentGuard).None? then firstGuard else old(contentGuard)
    {
      EnsureContentGuardExists(created, firstGuard);
    }

    /**
     * `ensure_content_guard_exists_on_distribution`: a newly created
     * distribution with no content guard gets the first redirect guard (none
     * if there is none) and is saved again; any other save leaves it alone.
     */
    method EnsureContentGuardExists(created: bool, firstGuard: Option<nat>)
      modifies this
      decreases if created then 1 else 0, 0
      ensures contentGuard == if created && old(contentGuard).None? then firstGuard else old(contentGuard)
    {
      if created && contentGuard.None? {
        contentGuard := firstGuard;
        Save(false, firstGuard);
      }
    }
  }

  /** A link of a namespace: its name and URL. */
  datatype Link = Link(name: string, url: string)

  /** The fields of a pulp_ansible AnsibleNamespaceMetadata row that the handler reads. */
  datatype NamespaceMetadata = NamespaceMetadata(
    id: nat,
    name: string,
    company: string,
    email: string,
    description: string,
    resources: string,
    links: seq<(string, string)>,
    metadataSha256: string)

  /** The fields of a galaxy Namespace row that the handler reads or writes. */
  datatype Namespace = Namespace(
    company: string,
    email: string,
    description: string,
    resources: string,
    links: seq<Link>,
    lastCreatedPulpMetadata: Option<nat>,
    metadataSha256: Option<string>)

  /** A Namespace created by `get_or_create(name=...)`: empty fields, no metadata. */
  const NewNamespace := Namespace("", "", "", "", [], None, None)

  /** `_update_metadata`: the namespace takes every field of the metadata row, and links one per entry. */
  function UpdateMetadata(ns: Namespace, m: NamespaceMetadata): (r: Namespace)
    ensures r.lastCreatedPulpMetadata == Some(m.id)
    ensures r.company == m.company && r.email == m.email
    ensures r.description == m.description && r.resources == m.resources
    ensures |r.links| == |m.links| && forall i :: 0 <= i < |m.links| ==> r.links[i] == Link(m.links[i].0, m.links[i].1)
    ensures r.metadataSha256 == ns.metadataSha256
  {
    ns.(lastCreatedPulpMetadata := Some(m.id), company := m.company, email := m.email,
        description := m.description, resources := m.resources,
        links := seq(|m.links|, i requires 0 <= i < |m.links| => Link(m.links[i].0, m.links[i].1)))
  }

  /** Whether `associate_namespace_metadata` rewrites the namespace (`created` is get_or_create's). */
  predicate NeedsUpdate(ns: Namespace, created: bool, m: NamespaceMetadata)
    ensures created ==> NeedsUpdate(ns, created, m)
    ensures !NeedsUpdate(ns, created, m) ==> ns.lastCreatedPulpMetadata.Some? && ns.metadataSha256 == Some(m.metadataSha256)
  {
    created || ns.lastCreatedPulpMetadata.None? || ns.metadataSha256 != Some(m.metadataSha256)
  }

  /** The namespaces after `associate_namespace_metadata` handles metadata row `m`. */
  function Associate(namespaces: map<string, Namespace>, m: NamespaceMetadata): (r: map<string, Namespace>)
    ensures r.Keys == namespaces.Keys + {m.name}
    ensures r[m.name].metadataSha256 == if m.name in namespaces then namespaces[m.name].metadataSha256 else None
  {
    var created := m.name !in namespaces;
    var ns := if created then NewNamespace else namespaces[m.name];
    namespaces[m.name := if NeedsUpdate(ns, created, m) then UpdateMetadata(ns, m) else ns]
  }

  /**
   * The namespace named by `m` exists afterwards; it is rewritten from `m`
   * exactly when it is new, has no metadata yet or has a different digest,
   * and every other namespace is left alone.
   */
  lemma AssociateRewritesOnlyWhenNeeded(namespaces: map<string, Namespace>, m: NamespaceMetadata)
    ensures var r := Associate(namespaces, m);
      && m.name in r
      && (m.name !in namespaces ==> r[m.name] == UpdateMetadata(NewNamespace, m))
      && (m.name in namespaces && NeedsUpdate(namespaces[m.name], false, m) ==> r[m.name] == UpdateMetadata(namespaces[m.name], m))
      && (m.name in namespaces && !NeedsUpdate(namespaces[m.name], false, m) ==> r == namespaces)
      && (forall n :: n in namespaces && n != m.name ==> n in r && r[n] == namespaces[n])
  {
    if m.name in namespaces && !NeedsUpdate(namespaces[m.name], false, m) {
      assert namespaces[m.name := namespaces[m.name]] == namespaces;
    }
  }

  /** Handling the same metadata row twice leaves what handling it once leaves. */
  lemma AssociateIdempotent(namespaces: map<string, Namespace>, m: NamespaceMetadata)
    ensures Associate(Associate(namespaces, m), m) == Associate(namespaces, m)
  {
    var once := Associate(namespaces, m);
    var ns := once[m.name];
    if NeedsUpdate(ns, false, m) {
      assert UpdateMetadata(ns, m) == ns;
    }
    assert once[m.name := ns] == once;
  }

  /** The galaxy Namespace table, keyed by name. */
  class NamespaceTable {
    var namespaces: map<string, Namespace>

    constructor(namespaces: map<string, Namespace>)
      ensures this.namespaces == namespaces
    {
      this.namespaces := namespaces;
    }

    /** `create_namespace_if_not_present`, the `post_save` handler of Collection. */
    method CreateNamespaceIfNotPresent(collectionNamespace: string)
      modifies this
      ensures collectionNamespace in namespaces
      ensures namespaces == if collectionNamespace in old(namespaces) then old(namespaces)
                            else old(namespaces)[collectionNamespace := NewNamespace]
    {
      if collectionNamespace !in namespaces {
        namespaces := namespaces[collectionNamespace := NewNamespace];
      }
    }

    /** `associate_namespace_metadata`, the `post_save` handler of AnsibleNamespaceMetadata. */
    method AssociateNamespaceMetadata(m: NamespaceMetadata)
      modifies this
      ensures namespaces == Associate(old(namespaces), m)
    {
      var created := m.name !in namespaces;
      if created {
        namespaces := namespaces[m.name := NewNamespace];
      }
      var ns := namespaces[m.name];
      if created || ns.lastCreatedPulpMetadata.None? {
        namespaces := namespaces[m.name := UpdateMetadata(ns, m)];
      } else if ns.metadataSha256 != Some(m.metadataSha256) {
        namespaces := namespaces[m.name := UpdateMetadata(ns, m)];
      }
    }
  }
}
