/**
 The scan with the real analysis of disk images and the real database in it: a file is infected exactly if it holds, within reach,
 an image of the size of a disk whose first 1024 bytes have a digest that the database lists as malicious.
 */
module ArchiveDisks {
  import opened Common
  import opened ArchiveScan
  import opened ArchiveSafety
  import opened ArchiveMeaning
  import opened SignatureFactory
  import opened SignatureDatabase
  import opened Statements
  import opened StatementTexts
  import AdfImage
  import AdfFilesystem

  /** Images are analysed as disks: by their size, and by the digest of the bootblock; matches come from a database. */
  ghost predicate Actual(lib: Library, db: seq<Entry>) {
    && (forall image :: IsSha256(lib.sha(image)))
    && (forall image ::
          if AdfImage.KnownSize(image) then
            && lib.analyze(image).Readable? && lib.analyze(image).bootblockSha == lib.sha(image[..1024])
            && (lib.analyze(image).filesystem.Some? <==> AdfFilesystem.RecognisedBoot(image))
          else lib.analyze(image) == Unreadable)
    && (forall sha :: lib.lookup(sha) == Found(db, NormalSha(sha)))
  }

  lemma {:induction false} DigestIsNormal(sha: string)
    requires IsSha256(sha)
    ensures NormalSha(sha) == sha
  {
    assert TrimSpace(sha) == sha;
    assert Lower(sha) == sha;
  }

  /** The database lists the bootblock of this image as malicious. */
  ghost predicate ListedDisk(lib: Library, db: seq<Entry>, image: Data) {
    && (|image| == 901120 || |image| == 1802240)
    && exists i :: 0 <= i < |db| && db[i].sha == lib.sha(image[..1024]) && db[i].status == "known-malicious"
  }

  lemma {:induction false} InfectedIsListed(lib: Library, db: seq<Entry>, image: Data)
    requires Actual(lib, db) && DistinctShas(db)
    ensures Infected(lib, image) <==> ListedDisk(lib, db, image)
  {
    hide NormalSha, Found, IsSha256;
    if AdfImage.KnownSize(image) {
      var sha := lib.sha(image[..1024]);
      DigestIsNormal(sha);
      FoundIsTheEntry(db, sha);
    }
  }

  lemma {:induction false} SomeInfected(lib: Library, images: seq<Spot>)
    ensures InfectedOf(lib, images) != [] <==> exists i :: 0 <= i < |images| && Infected(lib, images[i].image)
  {
    hide Infected;
    if images != [] {
      SomeInfected(lib, images[1..]);
      if i :| 0 <= i < |images| && Infected(lib, images[i].image) {
        assert i > 0 ==> Infected(lib, images[1..][i - 1].image);
      }
      if i :| 0 <= i < |images[1..]| && Infected(lib, images[1..][i].image) {
        assert Infected(lib, images[i + 1].image);
      }
    }
  }

  lemma {:induction false} DiskInfectedExactly(lib: Library, db: seq<Entry>, name: string, data: Data)
    requires Actual(lib, db) && DistinctShas(db) && FileSpec(lib, name, data).Some?
    ensures FileReach(lib, name, data).Some?
    ensures FileSpec(lib, name, data).value.node.infected <==>
            exists i :: 0 <= i < |FileReach(lib, name, data).value| && ListedDisk(lib, db, FileReach(lib, name, data).value[i].image)
  {
    hide Actual, FileSpec, FileReach, ListedDisk, Infected;
    InfectedExactly(lib, name, data);
    var images := FileReach(lib, name, data).value;
    SomeInfected(lib, images);
    forall i | 0 <= i < |images| ensures Infected(lib, images[i].image) <==> ListedDisk(lib, db, images[i].image) {
      InfectedIsListed(lib, db, images[i].image);
    }
  }

  /** Such a scan, for any digests, database and decoders; what is said of the listing is left open. */
  function ActualScan(lib: Library, db: seq<Entry>): Library {
    lib.(analyze := (image: Data) =>
                      if |image| == 901120 || |image| == 1802240 then
                        Readable(lib.sha(image[..1024]), if AdfFilesystem.RecognisedBoot(image) then Some("") else None)
                      else Unreadable,
         lookup := sha => SignatureDatabase.Found(db, NormalSha(sha)))
  }

  lemma {:induction false} ActualScanIsActual(lib: Library, db: seq<Entry>)
    requires forall image :: IsSha256(lib.sha(image))
    ensures Actual(ActualScan(lib, db), db)
  {
    hide NormalSha, SignatureDatabase.Found, IsSha256;
  }
}
