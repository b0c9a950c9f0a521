/**
 * Product images in the `productos` storage bucket: how an upload names
 * its object, how the public URL of an object is formed, and how a delete
 * recovers the object path from such a URL.
 */
module Storage {
  import opened Js
  import opened Backend

  /** The bucket name, which is also the first segment of every object path. */
  const Bucket := "productos"

  /** A file chosen in the browser; only its name matters here. */
  datatype File = File(name: string)

  /**
   * `name.split('.').pop()`: the text after the last dot, or the whole name
   * when it has no dot.
   */
  function FileExtension(name: string): (ext: string)
    ensures '.' !in ext
    ensures |ext| <= |name| && ext == name[|name| - |ext|..]
    ensures '.' !in name ==> ext == name
    ensures '.' in name ==> |ext| < |name| && name[|name| - |ext| - 1] == '.'
  {
    LastPiece(name, '.');
    Last(Split(name, '.'))
  }

  /** The object path of an upload: `productos/<productId>-<now>.<extension>`. */
  function UploadPath(productId: string, now: nat, fileName: string): (path: string)
    ensures |path| > |Bucket| && path[..|Bucket| + 1] == Bucket + "/"
  {
    var name := productId + "-" + DecimalString(now) + "." + FileExtension(fileName);
    assert (Bucket + "/" + name)[..|Bucket| + 1] == Bucket + "/";
    Bucket + "/" + name
  }

  /** `getPublicUrl(path)`: the service prefix, the bucket name, then the object path. */
  function PublicUrl(base: string, path: string): string
  {
    base + "/" + Bucket + "/" + path
  }

  /**
   * The object path that a delete recovers from an image URL: everything after
   * the first `/`-segment equal to `productos`, or nothing when there is none.
   */
  function ExtractPath(url: string): (path: Option<string>)
    ensures path.None? <==> Bucket !in Split(url, '/')
  {
    var parts := Split(url, '/');
    var k := IndexOf(parts, Bucket);
    if k == -1 then None else Some(Join(parts[k + 1..], '/'))
  }

  /** The path's `/`-segments are the URL's segments after the first `productos` one. */
  lemma ExtractedSegments(url: string)
    requires ExtractPath(url).Some?
    ensures var parts := Split(url, '/');
      var k := IndexOf(parts, Bucket);
      && parts[k] == Bucket && Bucket !in parts[..k]
      && (k + 1 < |parts| ==> Split(ExtractPath(url).value, '/') == parts[k + 1..])
      && (k + 1 == |parts| ==> ExtractPath(url).value == "")
  {
    var parts := Split(url, '/');
    var k := IndexOf(parts, Bucket);
    assert ExtractPath(url) == Some(Join(parts[k + 1..], '/'));
    if k + 1 < |parts| {
      SplitSuffixJoin(url, '/', k + 1);
    } else {
      assert parts[k + 1..] == [];
    }
  }

  /** A separator-free middle piece between two separators is one segment. */
  lemma SplitAroundSegment(a: string, b: string, c: string, d: char)
    requires d !in b
    ensures Split(a + [d] + b + [d] + c, d) == Split(a, d) + [b] + Split(c, d)
  {
    assert a + [d] + b + [d] + c == a + [d] + (b + [d] + c);
    SplitAround(a, b + [d] + c, d);
    SplitAround(b, c, d);
    JoinSplit(b, d);
  }

  /** In `prefix + [Bucket] + suffix`, the first bucket segment is the one after `prefix`. */
  lemma FirstBucketSegment(parts: seq<string>, prefix: seq<string>, suffix: seq<string>)
    requires parts == prefix + [Bucket] + suffix
    requires Bucket !in prefix
    ensures IndexOf(parts, Bucket) == |prefix|
    ensures parts[|prefix| + 1..] == suffix
  {
    assert parts[|prefix|] == Bucket && parts[..|prefix|] == prefix;
  }

  /**
   * Any text followed by `/productos/` and a path, where the text itself has
   * no `productos` segment, yields exactly that path.
   */
  lemma ExtractAfterFirstBucket(prefix: string, path: string)
    requires Bucket !in Split(prefix, '/')
    ensures ExtractPath(prefix + "/" + Bucket + "/" + path) == Some(path)
  {
    var url := prefix + "/" + Bucket + "/" + path;
    SplitAroundSegment(prefix, Bucket, path, '/');
    var parts := Split(url, '/');
    FirstBucketSegment(parts, Split(prefix, '/'), Split(path, '/'));
    JoinSplit(path, '/');
  }

  /** Deleting by the public URL of an upload targets exactly the uploaded object. */
  lemma UploadDeleteRoundTrip(base: string, productId: string, now: nat, fileName: string)
    requires Bucket !in Split(base, '/')
    ensures var path := UploadPath(productId, now, fileName);
      ExtractPath(PublicUrl(base, path)) == Some(path)
  {
    ExtractAfterFirstBucket(base, UploadPath(productId, now, fileName));
  }

  /**
   * `uploadProductImage(file, productId)` at time `now`: uploads under
   * `UploadPath` and returns the public URL, or null when the upload fails.
   */
  method UploadProductImage(db: Store, file: File, productId: string, now: nat, answer: Outcome)
    returns (url: Option<string>)
    modifies db`objetos, db`storageCalls
    ensures var path := UploadPath(productId, now, file.name);
      && db.storageCalls == old(db.storageCalls) + [Upload(path)]
      && db.objetos == (if answer.Ok? then old(db.objetos) + {path} else old(db.objetos))
      && url == (if answer.Ok? then Some(PublicUrl(db.publicBase, path)) else None)
  {
    var path := UploadPath(productId, now, file.name);
    var r := db.UploadObject(path, answer);
    if r.Failed? {
      return None;
    }
    url := Some(PublicUrl(db.publicBase, path));
  }

  /**
   * `deleteProductImage(imageUrl)`: false without any storage call when the
   * URL has no `productos` segment; otherwise one remove call for the
   * extracted path, true exactly when the backend accepts it.
   */
  method DeleteProductImage(db: Store, imageUrl: string, answer: Outcome) returns (ok: bool)
    modifies db`objetos, db`storageCalls
    ensures ExtractPath(imageUrl).None? ==>
      !ok && db.storageCalls == old(db.storageCalls) && db.objetos == old(db.objetos)
    ensures ExtractPath(imageUrl).Some? ==>
      var path := ExtractPath(imageUrl).value;
      && ok == answer.Ok?
      && db.storageCalls == old(db.storageCalls) + [Remove(path)]
      && db.objetos == (if answer.Ok? then old(db.objetos) - {path} else old(db.objetos))
  {
    var urlParts := Split(imageUrl, '/');
    var productosIndex := IndexOf(urlParts, Bucket);
    if productosIndex == -1 {
      return false;
    }
    var filePath := Join(urlParts[productosIndex + 1..], '/');
    var r := db.RemoveObject(filePath, answer);
    ok := r.Ok?;
  }
  /**
   * An image uploaded for a product and later deleted through the URL the
   * upload returned, against the store's own URL prefix: the delete removes
   * exactly the uploaded object. Without a URL there is nothing to delete.
   */
  method UploadThenDelete(db: Store, file: File, productId: string, now: nat, upload: Outcome, remove: Outcome)
    returns (url: Option<string>, ok: bool)
    requires db.Valid()
    modifies db`objetos, db`storageCalls
    ensures var path := UploadPath(productId, now, file.name);
      && (upload.Failed? ==>
            url.None? && !ok && db.storageCalls == old(db.storageCalls) + [Upload(path)] && db.objetos == old(db.objetos))
      && (upload.Ok? ==>
            && ok == remove.Ok?
            && db.storageCalls == old(db.storageCalls) + [Upload(path), Remove(path)]
            && db.objetos == if remove.Ok? then old(db.objetos) + {path} - {path} else old(db.objetos) + {path})
  {
    url := UploadProductImage(db, file, productId, now, upload);
    ok := false;
    if url.Some? {
      UploadDeleteRoundTrip(db.publicBase, productId, now, file.name);
      ok := DeleteProductImage(db, url.value, remove);
    }
  }
}
