/** The result every footer recognizer returns: no footer of its kind
    (`Ok(None)`), the footer's metadata, or a parse error once its magic
    was seen. The enum and struct definitions live in the footer module's
    root, which is not part of this model; the variants below are the ones
    the three recognizers construct or that `parse_v1` returns. Strings are
    kept as the bytes they were decoded from. */
module Footer {
  import opened Bytes

  datatype FooterParseError =
    | BufferTooSmall(needed: nat)
    | STagInvalidCSV(payload: seq<byte>)
    | STagInvalidVersion(version: seq<byte>)
    | STagInvalidId(id: seq<byte>)
    | StringToIntError(text: seq<byte>)
    | PCv1EKeyTooLarge(length: nat)
    | PCv1EKeyInvalid
    | PCv2InvalidVersion(number: nat)

  /** `STagMetadata`: the media id and the numeric resource id. */
  datatype STagMetadata = STagMetadata(mediaMid: seq<byte>, resourceId: nat)

  /** `PcV2MusicEx`: the resource id and the file name used for the key
      lookup. */
  datatype PcV2MusicEx = PcV2MusicEx(mid: seq<byte>, mediaFilename: seq<byte>)

  /** The format-specific part of the metadata. */
  datatype Data =
    | AndroidSTag(stag: STagMetadata)
    | PCv1Legacy
    | PCv2MusicExData(musicex: PcV2MusicEx)

  /** `Metadata`: the embedded key if there is one, the number of bytes the
      footer occupies at the end of the file, and the variant data. */
  datatype Metadata = Metadata(ekey: Option<seq<byte>>, size: nat, data: Data)

  /** `Result<Option<Metadata>, FooterParseError>`. */
  type ParseResult = Result<Option<Metadata>, FooterParseError>
}
