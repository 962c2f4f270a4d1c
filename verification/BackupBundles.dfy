/** What the backup protocol publishes is what `validate_bundle` accepts, and remains so as
    long as nothing that it needs is deleted; and what either engine assembles and stamps
    passes the protocol's checks. */
module BackupBundles {
  import opened Text
  import opened BundleFiles
  import opened BundleContents
  import opened BundleCreation
  import BundleFinalize
  import Manifest
  import SchemaRewrite
  import opened BackupProtocol
  import opened BackupRuns

  /** `validate_bundle`, for its schema version. */
  function Validator(env: Environment): BackupProtocol.Bundle -> Option<Version>
  {
    b => match Validate(env, b)
         case None => None
         case Some(m) => Some(m.schemaVersion)
  }

  /** In every state reached, a folder was published valid, and is valid now exactly if the
      deletions since then took nothing that validation needs: neither of the two metadata
      files, nor a listed file, nor an asset directory. */
  lemma PublishedIsValid(env: Environment, s: State, origin: State, steps: seq<Step>, place: Place)
    requires Reached(s, origin, steps) && origin.validate == Validator(env) && place in s.published
    ensures var b, taken := AsPublished(origin, steps, place, NOTHING), Taken(origin, steps, place, {});
      && Validate(env, b).Some?
      && (Validate(env, s.published[place].content).Some? <==> NothingNeeded(Validate(env, b).value, taken))
      && (s.published[place].kind.Manual? ==> Validate(env, s.published[place].content).Some?)
  {
    ReachedSafe(s, origin, steps);
    PublishedIsComplete(s, origin, steps, place, "");
    var b := AsPublished(origin, steps, place, NOTHING);
    assert Validator(env)(b).Some? && Validate(env, b).Some?;
    LossDetected(env, b, Validate(env, b).value, Taken(origin, steps, place, {}));
  }

  /** Contents that make a valid bundle, and a schema version that can be stamped on it. */
  ghost predicate Stampable(env: Environment, c: Contents, version: string)
  {
    && HexDigests(env) && Acceptable(c)
    && |c.dump| > 0 && env.pgMajor(Trim(c.postgresVersion)) == Some(REQUIRED_PG_MAJOR_VERSION)
    && version != "" && Trim(version) == version && (forall i :: 0 <= i < |version| ==> !IsControl(version[i]))
    && |SchemaRewrite.SchemaBytes(version)| <= Manifest.U64_MAX
  }

  lemma StampedIsRead(env: Environment, c: Contents, version: string)
    requires Stampable(env, c, version)
    ensures Validator(env)(BundleCreation.Stamped(env, c, version)) == Some(version)
  {
    var _, _ := TrimIs(version);
    StampedValid(env, c, version);
  }

  lemma StampableHolds(env: Environment, c: Contents, version: string)
    requires Stampable(env, c, version)
    ensures Holds(BundleCreation.Stamped(env, c, version), SchemaRewrite.NewManifest(env, CreatedManifest(env, c), version),
                  c, 1, version, c.applicationVersion)
  {
    StampedHolds(env, c, version);
  }

  /** Where its folder and its staging directory are new, the external engine publishes the
      created bundle, stamped with the schema version that the call was told, with all that
      was collected for it, and neither the checks before the rename nor the one after it
      refuse it. */
  lemma EnginePublishes(env: Environment, c: Contents, s: State)
    requires s.call.Placed? && s.call.request in s.rows && Enabled(s, OpenStage)
    requires s.mode.External? && s.validate == Validator(env) && Stampable(env, c, s.target)
    ensures Publishes(s, Created(env, c), BundleCreation.Stamped(env, c, s.target))
    ensures Holds(BundleCreation.Stamped(env, c, s.target), SchemaRewrite.NewManifest(env, CreatedManifest(env, c), s.target),
                  c, 1, s.target, c.applicationVersion)
  {
    StampedPublishes(env, c, s);
    StampableHolds(env, c, s.target);
  }

  lemma StampedPublishes(env: Environment, c: Contents, s: State)
    requires s.call.Placed? && s.call.request in s.rows && Enabled(s, OpenStage)
    requires s.mode.External? && s.validate == Validator(env) && Stampable(env, c, s.target)
    ensures Publishes(s, Created(env, c), BundleCreation.Stamped(env, c, s.target))
  {
    var assembled, b := Created(env, c), BundleCreation.Stamped(env, c, s.target);
    assert s.validate(b) == Some(EngineVersion(s)) by { StampedIsRead(env, c, s.target); }
    EnginePublishesValid(s, assembled, b);
  }

  /** The bundle that the embedded engine stages: created, and changed to format 2. */
  function Embedded(env: Environment, c: Contents, meta: BundleFinalize.Metadata): BackupProtocol.Bundle
  {
    BundleFinalize.Finalized(env, Created(env, c), CreatedManifest(env, c), meta)
  }

  /** Versions that can be written into the two version files. */
  ghost predicate Finalizable(env: Environment, c: Contents, meta: BundleFinalize.Metadata)
  {
    && HexDigests(env) && Acceptable(c)
    && |c.dump| > 0 && env.pgMajor(Trim(c.postgresVersion)) == Some(REQUIRED_PG_MAJOR_VERSION)
    && meta.schemaVersion != "" && Trim(meta.schemaVersion) == meta.schemaVersion
    && (forall i :: 0 <= i < |meta.schemaVersion| ==> !IsControl(meta.schemaVersion[i]))
    && !AllWhiteSpace(meta.applicationVersion)
    && (forall i :: 0 <= i < |Trim(meta.applicationVersion)| ==> !IsControl(Trim(meta.applicationVersion)[i]))
    && |BundleFinalize.VersionBytes(meta.schemaVersion)| <= Manifest.U64_MAX
    && |BundleFinalize.VersionBytes(meta.applicationVersion)| <= Manifest.U64_MAX
  }

  lemma EmbeddedIsRead(env: Environment, c: Contents, meta: BundleFinalize.Metadata)
    requires Finalizable(env, c, meta)
    ensures Validator(env)(Embedded(env, c, meta)) == Some(meta.schemaVersion)
  {
    BundleFinalize.CreatedFinalizes(env, c, meta);
  }

  /** The same for the embedded engine, which stamps the schema version that it reads, for
      backups of every kind. */
  lemma EmbeddedPublishes(env: Environment, c: Contents, meta: BundleFinalize.Metadata, s: State)
    requires s.call.Placed? && s.call.request in s.rows && Enabled(s, OpenStage)
    requires s.mode.Embedded? && s.validate == Validator(env) && Finalizable(env, c, meta)
    requires meta.schemaVersion == s.schema
    ensures Publishes(s, Created(env, c), Embedded(env, c, meta))
    ensures Holds(Embedded(env, c, meta), BundleFinalize.FinalManifest(env, CreatedManifest(env, c), meta),
                  c, 2, meta.schemaVersion, Trim(meta.applicationVersion))
  {
    FinalizedHolds(env, c, meta);
    var assembled, b := Created(env, c), Embedded(env, c, meta);
    assert s.validate(b) == Some(EngineVersion(s)) by { EmbeddedIsRead(env, c, meta); }
    EnginePublishesValid(s, assembled, b);
  }

  /** The engine's steps are possible, and the bundle is at the final path afterwards and
      passes the inspection. */
  ghost predicate Publishes(s: State, assembled: BackupProtocol.Bundle, b: BackupProtocol.Bundle)
    requires s.call.Placed? && s.call.request in s.rows
  {
    IsRun(s, Engine(assembled, b)) && Arrived(Run(s, Engine(assembled, b)), FinalPlace(s, s.call.directory), b)
  }

  ghost predicate Arrived(t: State, place: Place, b: BackupProtocol.Bundle)
  {
    place in t.published && t.published[place].content == b && Enabled(t, Inspect(true))
  }

  lemma EnginePublishesValid(s: State, assembled: BackupProtocol.Bundle, b: BackupProtocol.Bundle)
    requires Enabled(s, OpenStage) && s.validate(b) == Some(EngineVersion(s))
    ensures Publishes(s, assembled, b)
  {
    EngineRuns(s, assembled, b);
  }
}
