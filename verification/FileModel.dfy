/** Where blobs live and what is recorded about them. */
module FileModel {
  import opened Prelude

  /** Why a completed blob is retained. */
  datatype BlobOrigin = Upload | UpstreamCache

  /** A path below the storage root: a completed blob under its two fan-out directories in the root of
      its origin, a temporary file, or a quarantined file. */
  datatype FilePath =
    | Completed(origin: BlobOrigin, h0: string, h1: string, name: string)
    | Temp(name: string)
    | Quarantined(name: string)

  datatype FileLocation = Local(path: FilePath) | S3(key: string)

  datatype FileMetadata = FileMetadata(
    location: FileLocation, extension: Option<string>, mimeType: Option<string>, size: u64,
    createdAt: u64, pubkey: Option<string>, expiration: Option<u64>, origin: BlobOrigin)
}
