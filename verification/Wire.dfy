/** The `DuplicateResponse` message: what the seed writes (src/enroll.rs:144-156) and
    the joiner reads back (src/join.rs:113-125). */
module Wire {
  import opened Wrappers
  import opened Tpm
  import opened Fleet

  datatype DuplicateResponse = DuplicateResponse(
    fleetKeyPublic: Bytes,
    duplicatePrivate: Bytes,
    encryptedSecret: Bytes,
    hasEncryptionKey: bool,
    encryptionKey: Bytes)

  function Encode(c: Crypto, blob: DuplicationBlob): DuplicateResponse {
    DuplicateResponse(
      Marshall(c, blob.fleetKeyPublic),
      blob.duplicatePrivate,
      blob.encryptedSecret,
      blob.encryptionKey.Some?,
      match blob.encryptionKey case Some(data) => data case None => [])
  }

  function Decode(c: Crypto, response: DuplicateResponse): Result<DuplicationBlob, Error> {
    var pub := Unmarshall(c, response.fleetKeyPublic);
    if pub.None? || !AcceptsPrivate(c, response.duplicatePrivate) || !AcceptsSecret(c, response.encryptedSecret)
    then Err(BadMarshalling)
    else if !response.hasEncryptionKey
    then Ok(DuplicationBlob(pub.value, response.duplicatePrivate, response.encryptedSecret, None))
    else if !AcceptsData(c, response.encryptionKey) then Err(BadMarshalling)
    else Ok(DuplicationBlob(pub.value, response.duplicatePrivate, response.encryptedSecret, Some(response.encryptionKey)))
  }

  /** Which field carries what: each of the message's buffers is the blob's buffer of the same
      name, on the way out and on the way in. */
  lemma MessageFields(c: Crypto, blob: DuplicationBlob, response: DuplicateResponse)
    requires response == Encode(c, blob) || Decode(c, response) == Ok(blob)
    ensures response.duplicatePrivate == blob.duplicatePrivate && response.encryptedSecret == blob.encryptedSecret
    ensures response.hasEncryptionKey <==> blob.encryptionKey.Some?
    ensures blob.encryptionKey.Some? ==> response.encryptionKey == blob.encryptionKey.value
    ensures if response == Encode(c, blob) then response.fleetKeyPublic == Marshall(c, blob.fleetKeyPublic)
            else Unmarshall(c, response.fleetKeyPublic) == Some(blob.fleetKeyPublic)
  {
  }

  /** A blob comes back as it was sent exactly when the library takes its buffers. */
  lemma DecodeUndoesEncode(c: Crypto, blob: DuplicationBlob)
    requires Sound(c)
    ensures Decode(c, Encode(c, blob)) == Ok(blob) <==>
              && AcceptsPrivate(c, blob.duplicatePrivate) && AcceptsSecret(c, blob.encryptedSecret)
              && (blob.encryptionKey.Some? ==> AcceptsData(c, blob.encryptionKey.value))
  {
  }

  /** Conversely an accepted message is the encoding of what it decodes to exactly when
      its public area is in the form `marshall` writes and it carries no key bytes
      behind a cleared flag: those the joiner drops. */
  lemma EncodeUndoesDecode(c: Crypto, response: DuplicateResponse)
    requires Decode(c, response).Ok?
    ensures Encode(c, Decode(c, response).value) == response <==>
              && Marshall(c, Unmarshall(c, response.fleetKeyPublic).value) == response.fleetKeyPublic
              && (response.hasEncryptionKey || response.encryptionKey == [])
  {
  }

  /** The message delivers `key` to the owner of `target` and to nobody else. */
  ghost predicate Delivers(c: Crypto, response: DuplicateResponse, key: Object, target: Public) {
    Decode(c, response).Ok? && Carries(c, Decode(c, response).value, key, target)
  }

  /** Duplicate, send, import is the identity on keys: for every key that may leave its
      TPM, every storage key to wrap for, and every choice of inner key and outer seed,
      the receiver rebuilds the very same blob and recovers the same public area and
      secret; with any other secret it recovers nothing. */
  lemma DuplicateSendImport(c: Crypto, key: Object, joiner: Object, inner: Bytes, outer: nat)
    requires Sound(c) && |inner| == INNER_KEY_BYTES
    requires !key.pub.fixedTpm && !key.pub.fixedParent
    requires Opens(joiner, joiner.pub)
    ensures var blob := DuplicationBlob(key.pub, Wrap(c, Transit(inner, outer, key)),
                                        Protect(c, SeedFor(joiner.sensitive, outer)), Some(inner));
            && Decode(c, Encode(c, blob)) == Ok(blob)
            && Delivers(c, Encode(c, blob), key, joiner.pub)
            && Imported(c, Some(joiner), blob) == Some(key)
            && (forall other: Object | other.sensitive != joiner.sensitive :: Imported(c, Some(other), blob) == None)
  {
    var blob := DuplicationBlob(key.pub, Wrap(c, Transit(inner, outer, key)),
                                Protect(c, SeedFor(joiner.sensitive, outer)), Some(inner));
    ReadsBack(c, Transit(inner, outer, key));
    DecodeUndoesEncode(c, blob);
    BlobCarries(c, Duplicated(inner, blob.duplicatePrivate, blob.encryptedSecret), key, joiner.pub, blob);
  }

  /** What the seed sends for a blob it made is delivered as that blob. */
  lemma EncodedBlobDelivers(c: Crypto, blob: DuplicationBlob, key: Object, target: Public)
    requires Sound(c) && Carries(c, blob, key, target)
    ensures Decode(c, Encode(c, blob)) == Ok(blob) && Delivers(c, Encode(c, blob), key, target)
  {
    DecodeUndoesEncode(c, blob);
  }
}
