/** The versioned serialization envelope for the relationships parsed from one Maven
    project: a version tag, the project, the map of POM sources and the relationships. */
module Relationships {
  import opened Common
  import opened StoreKeys

  /** A project reference: a plain project version, or a more specific reference (an
      artifact) that also names a type and classifier. */
  datatype ProjectRef =
    | ProjectVersionRef(groupId: string, artifactId: string, version: string)
    | ArtifactRef(groupId: string, artifactId: string, version: string, kind: string, classifier: string)

  /** `asProjectVersionRef`: the plain project version. */
  function AsProjectVersionRef(p: ProjectRef): (r: ProjectRef)
    ensures r.ProjectVersionRef?
    ensures r.groupId == p.groupId && r.artifactId == p.artifactId && r.version == p.version
    ensures p.ProjectVersionRef? ==> r == p
  {
    ProjectVersionRef(p.groupId, p.artifactId, p.version)
  }

  /** The envelope; `R` is the type of relationships. */
  datatype RelationshipSet<R> = RelationshipSet(project: ProjectRef, pomSources: map<ProjectRef, StoreKey>,
                                                relationships: set<R>)

  /** The constructor: the project is reduced to its plain project version. */
  function NewRelationshipSet<R>(project: ProjectRef, pomSources: map<ProjectRef, StoreKey>, relationships: set<R>)
    : (r: RelationshipSet<R>)
    ensures r.project.ProjectVersionRef? && r.project == AsProjectVersionRef(project)
    ensures r.pomSources == pomSources && r.relationships == relationships
  {
    RelationshipSet(AsProjectVersionRef(project), pomSources, relationships)
  }

  const SerialVersion: int := 1

  /** `getSerialVersion`. */
  function GetSerialVersion(): (r: int)
    ensures r == SerialVersion && r == 1
  {
    SerialVersion
  }

  /** The values written to the object stream. */
  datatype Token<R> =
    | IntToken(i: int)
    | ProjectObject(p: ProjectRef)
    | SourcesObject(m: map<ProjectRef, StoreKey>)
    | RelationshipsObject(rs: set<R>)

  datatype ReadError = NewerVersion(version: int) | Malformed

  /** `writeExternal`: the version, the project, the POM sources, the relationships. */
  function Write<R>(s: RelationshipSet<R>): (r: seq<Token<R>>)
    ensures |r| == 4 && r[0] == IntToken(SerialVersion)
  {
    [IntToken(SerialVersion), ProjectObject(s.project), SourcesObject(s.pomSources), RelationshipsObject(s.relationships)]
  }

  /** `readExternal`: a newer version is refused before any field is read; otherwise the
      three fields follow in order. The unread rest comes back too. */
  function Read<R>(ts: seq<Token<R>>): (r: Result<(RelationshipSet<R>, seq<Token<R>>), ReadError>)
    ensures r.Err? && r.error.NewerVersion? <==> |ts| > 0 && ts[0].IntToken? && ts[0].i > SerialVersion
    ensures r.Ok? ==> |ts| >= 4 && r.value.1 == ts[4..]
  {
    if |ts| == 0 || !ts[0].IntToken? then Err(Malformed)
    else if ts[0].i > SerialVersion then Err(NewerVersion(ts[0].i))
    else if |ts| < 4 || !ts[1].ProjectObject? || !ts[2].SourcesObject? || !ts[3].RelationshipsObject? then Err(Malformed)
    else Ok((RelationshipSet(ts[1].p, ts[2].m, ts[3].rs), ts[4..]))
  }

  /** Reading what was written restores all three fields. */
  lemma RoundTrip<R>(s: RelationshipSet<R>, rest: seq<Token<R>>)
    ensures Read(Write(s) + rest) == Ok((s, rest))
  {
    assert (Write(s) + rest)[4..] == rest;
  }

  /** Every tag up to the class's version is read the same way. */
  lemma OlderVersionAccepted<R>(s: RelationshipSet<R>, v: int, rest: seq<Token<R>>)
    requires v <= SerialVersion
    ensures Read([IntToken(v)] + Write(s)[1..] + rest) == Ok((s, rest))
  {
    assert ([IntToken(v)] + Write(s)[1..] + rest)[4..] == rest;
  }

  /** An empty set built from a project survives the round trip with the project's plain
      version, no sources and no relationships. */
  lemma EmptySetRoundTrip<R>(project: ProjectRef)
    ensures var s := NewRelationshipSet<R>(project, map[], {});
      Read(Write(s)) == Ok((RelationshipSet(AsProjectVersionRef(project), map[], {}), []))
  {
    RoundTrip(NewRelationshipSet<R>(project, map[], {}), []);
  }
}
