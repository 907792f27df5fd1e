/** A stored bundle file: its sidecar, its verification, and the payload unpacked from it. */
module BundleDelivery {
  import opened BundleManifest
  import opened BundleNames
  import opened BundleArchive
  import opened BundleVerification
  import opened BundleSafety

  /** The codec, and the tar reader: None for bytes it cannot read. */
  datatype Reader = Reader(codec: Codec, untar: string -> Option<seq<Member>>)

  datatype Sidecar = NotAsked | Unreadable | SidecarText(text: string)

  /** Where to unpack: nowhere, outside the extract root, onto something, or a free place. */
  datatype Destination = PreviewOnly | OutsideRoot | Occupied | Free

  datatype Stored = Stored(name: string, raw: string, sidecar: Sidecar, destination: Destination)

  datatype Delivered = Delivered(
    manifest: Manifest, fingerprint: string, archiveSha: Digest, extracted: Option<Unpacked>)

  /** The line publication writes beside an archive. */
  function SidecarLine(sha256: string -> Digest, raw: string, name: string): string {
    sha256(raw) + "  " + name + "\n"
  }

  /** _verify_sidecar raises nothing. */
  predicate SidecarOk(sha256: string -> Digest, limits: Limits, stored: Stored) {
    || stored.sidecar.NotAsked?
    || (&& stored.sidecar.SidecarText? && |stored.sidecar.text| <= limits.maxMetadataBytes
        && stored.sidecar.text == SidecarLine(sha256, stored.raw, stored.name))
  }

  /** The archive the tar reader sees; its size is that of the file. */
  function ArchiveOf(r: Reader, stored: Stored): Archive
    requires r.untar(stored.raw).Some?
  {
    Archive(r.untar(stored.raw).value, |stored.raw|)
  }

  /** _verify_bundle raises nothing, unpacking included. */
  predicate Confirmed(r: Reader, limits: Limits, stored: Stored) {
    && SidecarOk(r.codec.sha256, limits, stored)
    && r.untar(stored.raw).Some?
    && Accepts(r.codec, limits, ArchiveOf(r, stored))
    && (stored.destination.PreviewOnly? || (stored.destination.Free? && NoFileAbove(ArchiveOf(r, stored).members)))
  }

  /** The files and directories an unpacking leaves, or nothing when only a preview was asked for. */
  function Unpacking(r: Reader, stored: Stored): Option<Unpacked>
    requires r.untar(stored.raw).Some?
  {
    var members := ArchiveOf(r, stored).members;
    if stored.destination.Free? then Some(Unpacked(Files(members), DirectoriesMade(members))) else None
  }

  lemma AcceptedSize(c: Codec, limits: Limits, archive: Archive)
    requires Accepts(c, limits, archive)
    ensures 0 < archive.size <= limits.maxArchiveBytes && MembersAllowed(archive.members)
  {
    hide MembersAllowed;
    hide MetadataSmall;
    hide ManifestValid;
    hide PayloadAccepted;
    hide NamesWithinLimit;
    hide ExtractedBytes;
    hide RatioAllowed;
    hide Files;
  }

  method VerifyStored(r: Reader, limits: Limits, stored: Stored) returns (d: Option<Delivered>)
    ensures d.Some? <==> Confirmed(r, limits, stored)
    ensures d.Some? ==>
              && d.value.archiveSha == r.codec.sha256(stored.raw)
              && Some(d.value.manifest) == r.codec.parse(ManifestText(ArchiveOf(r, stored)))
              && Some(d.value.fingerprint) ==
                 r.codec.signer(ManifestText(ArchiveOf(r, stored)), SignatureText(ArchiveOf(r, stored)))
              && d.value.extracted ==
                 Unpacking(r, stored)
    ensures d.Some? <==>
            && (|| stored.sidecar == NotAsked
                || (&& stored.sidecar == SidecarText(r.codec.sha256(stored.raw) + "  " + stored.name + "\n")
                    && |stored.sidecar.text| <= limits.maxMetadataBytes))
            && r.untar(stored.raw).Some?
            && Accepts(r.codec, limits, Archive(r.untar(stored.raw).value, |stored.raw|))
            && (stored.destination == PreviewOnly ||
                (stored.destination == Free && NoFileAbove(r.untar(stored.raw).value)))
    ensures d.Some? ==>
              && (stored.destination == PreviewOnly ==> d.value.extracted.None?)
              && (stored.destination == Free ==>
                    && d.value.extracted.Some?
                    && d.value.extracted.value.files == Files(r.untar(stored.raw).value))
  {
    hide Accepts;
    hide NoFileAbove;
    hide ManifestText;
    hide SignatureText;
    hide MembersAllowed;
    hide Files;
    hide IsDigest;
    assert SidecarLine(r.codec.sha256, stored.raw, stored.name) ==
      r.codec.sha256(stored.raw) + "  " + stored.name + "\n";
    hide SidecarLine;
    if r.untar(stored.raw).Some? && Accepts(r.codec, limits, ArchiveOf(r, stored)) {
      AcceptedSize(r.codec, limits, ArchiveOf(r, stored));
    }
    if |stored.raw| == 0 || |stored.raw| > limits.maxArchiveBytes {
      return None;
    }
    var digest := r.codec.sha256(stored.raw);
    match stored.sidecar {
      case NotAsked =>
      case Unreadable =>
        return None;
      case SidecarText(text) =>
        if |text| > limits.maxMetadataBytes || text != SidecarLine(r.codec.sha256, stored.raw, stored.name) {
          return None;
        }
    }
    var members := r.untar(stored.raw);
    if members.None? {
      return None;
    }
    var verdict := VerifyBundle(r.codec, limits, ArchiveOf(r, stored));
    if verdict.Refused? {
      return None;
    }
    if stored.destination.PreviewOnly? {
      return Some(Delivered(verdict.manifest, verdict.fingerprint, digest, None));
    }
    if !stored.destination.Free? {
      return None;
    }
    var files := ExtractMembers(members.value);
    if files.None? {
      return None;
    }
    return Some(Delivered(verdict.manifest, verdict.fingerprint, digest, Some(files.value)));
  }

  /** A sidecar confirms exactly the file it was written for: same name, same digest. */
  lemma SidecarNamesOneFile(sha256: string -> Digest, limits: Limits, raw: string, name: string, stored: Stored)
    requires stored.sidecar == SidecarText(SidecarLine(sha256, raw, name))
    requires |stored.sidecar.text| <= limits.maxMetadataBytes
    ensures SidecarOk(sha256, limits, stored) <==> stored.name == name && sha256(stored.raw) == sha256(raw)
  {
    var mine, theirs := SidecarLine(sha256, raw, name), SidecarLine(sha256, stored.raw, stored.name);
    assert mine[..64] == sha256(raw) && theirs[..64] == sha256(stored.raw);
    assert mine[66..|mine| - 1] == name && theirs[66..|theirs| - 1] == stored.name;
  }

  /**
    What an import unpacks is decided by the signed manifest alone: two files, however packed, named and
    accompanied, that are confirmed and unpacked with the same manifest bytes leave the same payload files
    and the same directories.
   */
  lemma UnpackedPayloadIsSigned(r: Reader, limits: Limits, a: Stored, b: Stored)
    requires Confirmed(r, limits, a) && a.destination.Free? && Confirmed(r, limits, b) && b.destination.Free?
    requires ManifestText(ArchiveOf(r, a)) == ManifestText(ArchiveOf(r, b))
    requires CollisionFree(
               r.codec.sha256, HashedIn(r.codec, limits, ArchiveOf(r, a)) + HashedIn(r.codec, limits, ArchiveOf(r, b)))
    ensures var left, right := Unpacking(r, a).value, Unpacking(r, b).value;
            Payload(left.files) == Payload(right.files) && left.directories == right.directories
  {
    hide *;
    FreeIsUnpacked(r, limits, a);
    FreeIsUnpacked(r, limits, b);
    AcceptedSize(r.codec, limits, ArchiveOf(r, a));
    AcceptedSize(r.codec, limits, ArchiveOf(r, b));
    ManifestPinsArchive(r.codec, limits, ArchiveOf(r, a), ArchiveOf(r, b));
    UnpackedDirectories(ArchiveOf(r, a).members);
    UnpackedDirectories(ArchiveOf(r, b).members);
  }

  lemma FreeIsUnpacked(r: Reader, limits: Limits, stored: Stored)
    requires Confirmed(r, limits, stored) && stored.destination.Free?
    ensures r.untar(stored.raw).Some?
    ensures Accepts(r.codec, limits, ArchiveOf(r, stored)) && NoFileAbove(ArchiveOf(r, stored).members)
    ensures var members := ArchiveOf(r, stored).members;
            Unpacking(r, stored) == Some(Unpacked(Files(members), DirectoriesMade(members)))
  {
    hide Accepts;
    hide NoFileAbove;
    hide Files;
    hide DirectoriesMade;
    hide SidecarOk;
  }
}
