/**
 * The image-upload path of the product controller: the per-file validation of
 * `uploadImages`, the naming and writing done by `storeFile`, the media-type test
 * `isImageFile`, and the confirmation text of `deleteProduct`.
 *
 * The product service, the UUID generator and `StringUtils.cleanPath` are
 * collaborators whose code is not visible; they enter as values supplied by the caller.
 */
module ProductController {
  import opened Wrappers
  import Decimal

  const StatusOk: nat := 200
  const StatusBadRequest: nat := 400
  const StatusPayloadTooLarge: nat := 413
  const StatusUnsupportedMediaType: nat := 415

  /** Largest accepted upload, in bytes (10 MiB); a file of exactly this size passes. */
  const MaxFileSize: nat := 10 * 1024 * 1024

  /** The media-type prefix every accepted content type starts with. */
  const ImagePrefix: string := "image/"

  const TooLargeText: string := "File is too large! Maximum size is 10MB."
  const NotAnImageText: string := "File must be an image."
  const InvalidImageText: string := "Invalid image format"

  /** A part of the multipart request: declared size, content type and client file name. */
  datatype MultipartFile = MultipartFile(size: nat, contentType: Option<string>, originalFilename: Option<string>)

  /** The product found by the service; only its id is used here. */
  datatype Product = Product(id: int)

  /** An image record as the service returns it after registering a file name. */
  datatype ProductImage = ProductImage(id: int, productId: int, imageUrl: string)

  datatype Body = Images(images: seq<ProductImage>) | Message(text: string)

  /** What the controller answers: an HTTP status and a body. */
  datatype Response = Response(status: nat, body: Body)

  /** The collaborators of one upload request. */
  datatype Collaborators = Collaborators(
    uuid: nat -> string,                                  // the k-th id drawn during the request
    cleanPath: string -> string,                          // StringUtils.cleanPath
    createImage: (int, string) -> Result<ProductImage, string>  // IProductService.createProductImage
  )

  // ---------------------------------------------------------------------------
  // isImageFile and storeFile

  /** Java's `String.startsWith`. */
  predicate StartsWith(s: string, prefix: string) {
    |prefix| <= |s| && s[..|prefix|] == prefix
  }

  predicate EndsWith(s: string, suffix: string) {
    |suffix| <= |s| && s[|s| - |suffix|..] == suffix
  }

  /** The content type is present and starts with "image/". */
  predicate IsImageFile(file: MultipartFile) {
    file.contentType.Some? && StartsWith(file.contentType.value, ImagePrefix)
  }

  /** A media type of the "image" top-level type. */
  function ImageType(subtype: string): string {
    ImagePrefix + subtype
  }

  /** `isImageFile` accepts exactly the content types of the form "image/<subtype>". */
  lemma IsImageFileIff(file: MultipartFile)
    ensures IsImageFile(file) <==> file.contentType.Some? && exists sub :: file.contentType.value == ImageType(sub)
  {
    if IsImageFile(file) {
      var ct := file.contentType.value;
      assert ct == ImageType(ct[|ImagePrefix|..]);
    }
    if file.contentType.Some? && exists sub :: file.contentType.value == ImageType(sub) {
      var sub :| file.contentType.value == ImageType(sub);
      assert file.contentType.value[..|ImagePrefix|] == ImagePrefix;
    }
  }

  /**
   * The name `storeFile` gives a file, or the message of the IOException it throws.
   * `id` is the UUID drawn for the file.
   */
  function StoreFileName(file: MultipartFile, id: string, cleanPath: string -> string): (r: Result<string, string>)
    ensures r.Success? <==> IsImageFile(file) && file.originalFilename.Some?
    ensures r.Failure? ==> r.error == InvalidImageText
    ensures r.Success? ==>
              var cleaned := cleanPath(file.originalFilename.value);
              StartsWith(r.value, id) && EndsWith(r.value, "_" + cleaned)
              && |r.value| == |id| + 1 + |cleaned|
  {
    if !IsImageFile(file) || file.originalFilename.None? then Failure(InvalidImageText)
    else Success(id + "_" + cleanPath(file.originalFilename.value))
  }

  /** The `uploads` directory on the local disk. */
  class UploadDirectory {
    /** Whether the directory exists. */
    var present: bool
    /** The names of the files copied into the directory, in the order they were written. */
    var written: seq<string>

    constructor (present: bool)
      ensures this.present == present && written == []
    {
      this.present := present;
      written := [];
    }

    /** `storeFile`: check the file, name it, create the directory if needed, copy the file in. */
    method StoreFile(file: MultipartFile, id: string, cleanPath: string -> string) returns (r: Result<string, string>)
      modifies this
      ensures r == StoreFileName(file, id, cleanPath)
      ensures r.Failure? ==> present == old(present) && written == old(written)
      ensures r.Success? ==> present && written == old(written) + [r.value]
    {
      if !IsImageFile(file) || file.originalFilename.None? {
        return Failure(InvalidImageText);
      }
      var fileName := cleanPath(file.originalFilename.value);
      var uniqueFilename := id + "_" + fileName;
      if !present {
        present := true;
      }
      written := written + [uniqueFilename];
      return Success(uniqueFilename);
    }
  }

  /** The product service, reduced to the answers it gives and the image records it creates. */
  class ProductService {
    /** What `getProductById` returns for an id, or the message of what it throws. */
    const lookup: int -> Result<Product, string>
    /** What `createProductImage` returns for a product id and image name, or the message it throws. */
    const createImage: (int, string) -> Result<ProductImage, string>
    /** The image records created so far. */
    var created: seq<ProductImage>

    constructor (lookup: int -> Result<Product, string>, createImage: (int, string) -> Result<ProductImage, string>)
      ensures this.lookup == lookup && this.createImage == createImage && created == []
    {
      this.lookup := lookup;
      this.createImage := createImage;
      created := [];
    }

    method GetProductById(id: int) returns (r: Result<Product, string>)
      ensures r == lookup(id)
    {
      r := lookup(id);
    }

    method CreateProductImage(productId: int, imageUrl: string) returns (r: Result<ProductImage, string>)
      modifies this
      ensures r == createImage(productId, imageUrl)
      ensures created == old(created) + (if r.Success? then [r.value] else [])
    {
      r := createImage(productId, imageUrl);
      if r.Success? {
        created := created + [r.value];
      }
    }
  }

  // ---------------------------------------------------------------------------
  // uploadImages, as a function of its inputs

  /**
   * The effect of the per-file loop: the names written to disk, the image records
   * created, and the response that ended the loop early, if any.
   */
  datatype Trace = Trace(stored: seq<string>, created: seq<ProductImage>, stop: Option<Response>)

  /** `prefix` effects followed by the trace `t`. */
  function Join(stored: seq<string>, created: seq<ProductImage>, t: Trace): Trace {
    Trace(stored + t.stored, created + t.created, t.stop)
  }

  function BadRequest(text: string): Response {
    Response(StatusBadRequest, Message(text))
  }

  function TooManyText(maxImages: int): string {
    "You can upload maximum " + Decimal.IntToString(maxImages) + " images"
  }

  /** What the loop does with one file. */
  datatype Step =
    | Skip                                        // an empty file: `continue`
    | Halt(written: seq<string>, response: Response) // the request ends with `response`
    | Accept(name: string, image: ProductImage)   // stored as `name` and registered as `image`

  /** The loop body of `uploadImages` for `file`, with `id` the UUID `storeFile` would draw. */
  function StepOf(productId: int, file: MultipartFile, id: string,
                  cleanPath: string -> string, createImage: (int, string) -> Result<ProductImage, string>): (s: Step)
    ensures s.Skip? <==> file.size == 0
    ensures s.Halt? ==> |s.written| <= 1 && s.response.status != StatusOk
  {
    if file.size == 0 then Skip
    else if file.size > MaxFileSize then Halt([], Response(StatusPayloadTooLarge, Message(TooLargeText)))
    else if !IsImageFile(file) then Halt([], Response(StatusUnsupportedMediaType, Message(NotAnImageText)))
    else match StoreFileName(file, id, cleanPath)
      case Failure(e) => Halt([], BadRequest(e))
      case Success(name) =>
        match createImage(productId, name)
        case Failure(e) => Halt([name], BadRequest(e))
        case Success(image) => Accept(name, image)
  }

  /** The names a step writes to the upload directory. */
  function Written(step: Step): seq<string> {
    match step
    case Skip => []
    case Halt(written, _) => written
    case Accept(name, _) => [name]
  }

  /** The image records a step creates. */
  function Created(step: Step): seq<ProductImage> {
    if step.Accept? then [step.image] else []
  }

  /**
   * The loop of `uploadImages` over `files` for product `productId`, when `k` UUIDs
   * were already drawn: empty files are skipped; the first oversized, non-image,
   * unnamed or unregistrable file ends the loop with its response.
   */
  function Run(productId: int, files: seq<MultipartFile>, k: nat, env: Collaborators): (t: Trace)
    ensures |t.created| <= |t.stored| <= |t.created| + 1
    ensures |t.stored| <= |files|
    ensures t.stop.None? ==> |t.stored| == |t.created|
    ensures t.stop.Some? ==> t.stop.value.status != StatusOk
    decreases |files|
  {
    if files == [] then Trace([], [], None)
    else
      match StepOf(productId, files[0], env.uuid(k), env.cleanPath, env.createImage)
      case Skip => Run(productId, files[1..], k, env)
      case Halt(written, response) => Trace(written, [], Some(response))
      case Accept(name, image) => Join([name], [image], Run(productId, files[1..], k + 1, env))
  }

  /** `Run` after one file whose step is `step`. */
  lemma RunStep(productId: int, files: seq<MultipartFile>, k: nat, env: Collaborators, step: Step)
    requires files != [] && step == StepOf(productId, files[0], env.uuid(k), env.cleanPath, env.createImage)
    ensures step.Skip? ==> Run(productId, files, k, env) == Run(productId, files[1..], k, env)
    ensures step.Halt? ==> Run(productId, files, k, env) == Trace(step.written, [], Some(step.response))
    ensures step.Accept? ==> Run(productId, files, k, env) == Join([step.name], [step.image], Run(productId, files[1..], k + 1, env))
  {
  }

  /** Effects joined in two steps are the effects joined at once. */
  lemma JoinJoin(s1: seq<string>, c1: seq<ProductImage>, s2: seq<string>, c2: seq<ProductImage>, t: Trace)
    ensures Join(s1, c1, Join(s2, c2, t)) == Join(s1 + s2, c1 + c2, t)
  {
    assert s1 + (s2 + t.stored) == (s1 + s2) + t.stored;
    assert c1 + (c2 + t.created) == (c1 + c2) + t.created;
  }

  /** Everything one call of `uploadImages` does: its response, the files written, the records created. */
  datatype Outcome = Outcome(response: Response, stored: seq<string>, created: seq<ProductImage>)

  /** A null file list is the empty list. */
  function FileList(files: Option<seq<MultipartFile>>): seq<MultipartFile> {
    if files.None? then [] else files.value
  }

  /**
   * `uploadImages` for the product `lookup` found (or the message of the lookup's
   * exception), the submitted `files` and the service's image limit `maxImages`.
   */
  function Upload(lookup: Result<Product, string>, files: Option<seq<MultipartFile>>, maxImages: int, env: Collaborators): (o: Outcome)
    ensures o.stored != [] ==> lookup.Success? && |FileList(files)| <= maxImages
    ensures |o.created| <= |o.stored| <= |o.created| + 1
    ensures o.response.status == StatusOk ==> o.response.body == Images(o.created) && |o.stored| == |o.created|
  {
    match lookup
    case Failure(e) => Outcome(BadRequest(e), [], [])
    case Success(product) =>
      var list := FileList(files);
      if |list| > maxImages then Outcome(BadRequest(TooManyText(maxImages)), [], [])
      else Finish(Run(product.id, list, 0, env))
  }

  /** The outcome once the loop is over: the response that stopped it, or 200 with the records created. */
  function Finish(t: Trace): Outcome {
    Outcome(if t.stop.Some? then t.stop.value else Response(StatusOk, Images(t.created)), t.stored, t.created)
  }

  /** `uploadImages`: look the product up, check the count, then store and register each file in turn. */
  method UploadImages(service: ProductService, dir: UploadDirectory, productId: int, files: Option<seq<MultipartFile>>,
                      maxImages: int, uuid: nat -> string, cleanPath: string -> string) returns (response: Response)
    modifies service, dir
    ensures var o := Upload(service.lookup(productId), files, maxImages, Collaborators(uuid, cleanPath, service.createImage));
            response == o.response
            && dir.written == old(dir.written) + o.stored
            && dir.present == (old(dir.present) || o.stored != [])
            && service.created == old(service.created) + o.created
  {
    ghost var env := Collaborators(uuid, cleanPath, service.createImage);
    var found := service.GetProductById(productId);
    if found.Failure? {
      return BadRequest(found.error);
    }
    var product := found.value;
    var list := FileList(files);
    if |list| > maxImages {
      return BadRequest(TooManyText(maxImages));
    }
    var stop, productImages := StoreEach(service, dir, product.id, list, uuid, cleanPath);
    if stop.Some? {
      return stop.value;
    }
    return Response(StatusOk, Images(productImages));
  }

  /**
   * The loop of `uploadImages` over the files: stops at the first response it must
   * send, otherwise returns the records created, one per stored file.
   */
  method StoreEach(service: ProductService, dir: UploadDirectory, productId: int, list: seq<MultipartFile>,
                   uuid: nat -> string, cleanPath: string -> string)
    returns (stop: Option<Response>, productImages: seq<ProductImage>)
    modifies service, dir
    ensures var t := Run(productId, list, 0, Collaborators(uuid, cleanPath, service.createImage));
            stop == t.stop
            && productImages == t.created
            && dir.written == old(dir.written) + t.stored
            && dir.present == (old(dir.present) || t.stored != [])
            && service.created == old(service.created) + t.created
  {
    ghost var env := Collaborators(uuid, cleanPath, service.createImage);
    ghost var run := Run(productId, list, 0, env);
    productImages := [];
    ghost var stored: seq<string> := [];
    var i := 0;
    while i < |list|
      invariant 0 <= i <= |list|
      invariant |stored| == |productImages|
      invariant dir.written == old(dir.written) + stored
      invariant dir.present == (old(dir.present) || stored != [])
      invariant service.created == old(service.created) + productImages
      invariant run == Join(stored, productImages, Run(productId, list[i..], |productImages|, env))
    {
      var step := ProcessFile(service, dir, productId, list[i], uuid(|productImages|), cleanPath);
      RunAdvances(productId, list, i, env, run, stored, productImages, step);
      AppendAssoc(old(dir.written), stored, Written(step));
      AppendAssoc(old(service.created), productImages, Created(step));
      stored := stored + Written(step);
      if step.Halt? {
        return Some(step.response), productImages;
      }
      productImages := productImages + Created(step);
      i := i + 1;
    }
    RunEnds(productId, list, env, run, stored, productImages);
    return None, productImages;
  }

  /** The loop invariant of `UploadImages` carried past the step taken for `list[i]`. */
  lemma RunAdvances(productId: int, list: seq<MultipartFile>, i: nat, env: Collaborators, run: Trace,
                    stored: seq<string>, created: seq<ProductImage>, step: Step)
    requires i < |list| && |stored| == |created|
    requires run == Join(stored, created, Run(productId, list[i..], |created|, env))
    requires step == StepOf(productId, list[i], env.uuid(|created|), env.cleanPath, env.createImage)
    ensures step.Halt? ==> run == Trace(stored + Written(step), created, Some(step.response))
    ensures !step.Halt? ==>
              run == Join(stored + Written(step), created + Created(step), Run(productId, list[i + 1..], |created + Created(step)|, env))
  {
    assert list[i..][0] == list[i] && list[i..][1..] == list[i + 1..];
    RunStep(productId, list[i..], |created|, env, step);
    if step.Accept? {
      JoinJoin(stored, created, [step.name], [step.image], Run(productId, list[i + 1..], |created| + 1, env));
    } else if step.Skip? {
      assert stored + [] == stored && created + [] == created;
    }
  }

  lemma AppendAssoc<T>(a: seq<T>, b: seq<T>, c: seq<T>)
    ensures a + (b + c) == (a + b) + c
  {
  }

  /** Once the whole list is done, the loop's effects are all of `run`, and it did not stop. */
  lemma RunEnds(productId: int, list: seq<MultipartFile>, env: Collaborators, run: Trace,
                stored: seq<string>, created: seq<ProductImage>)
    requires |stored| == |created|
    requires run == Join(stored, created, Run(productId, list[|list|..], |created|, env))
    ensures run == Trace(stored, created, None)
  {
    assert list[|list|..] == [];
    assert stored + [] == stored && created + [] == created;
  }

  /**
   * The body of that loop for one file: skip it if empty, stop the request if it is
   * too large or not an image or cannot be stored or registered, else store and register it.
   */
  method ProcessFile(service: ProductService, dir: UploadDirectory, productId: int, file: MultipartFile,
                     id: string, cleanPath: string -> string) returns (step: Step)
    modifies service, dir
    ensures step == StepOf(productId, file, id, cleanPath, service.createImage)
    ensures dir.written == old(dir.written) + Written(step)
    ensures dir.present == (old(dir.present) || Written(step) != [])
    ensures service.created == old(service.created) + Created(step)
  {
    if file.size == 0 {
      return Skip;
    }
    if file.size > MaxFileSize {
      return Halt([], Response(StatusPayloadTooLarge, Message(TooLargeText)));
    }
    if !IsImageFile(file) {
      return Halt([], Response(StatusUnsupportedMediaType, Message(NotAnImageText)));
    }
    var filename := dir.StoreFile(file, id, cleanPath);
    if filename.Failure? {
      return Halt([], BadRequest(filename.error));
    }
    var productImage := service.CreateProductImage(productId, filename.value);
    if productImage.Failure? {
      return Halt([filename.value], BadRequest(productImage.error));
    }
    return Accept(filename.value, productImage.value);
  }

  // ---------------------------------------------------------------------------
  // deleteProduct

  /** The confirmation `deleteProduct` sends: "Product with id = <id> deleted successfully". */
  const DeletedPrefix: string := "Product with id = "
  const DeletedSuffix: string := " deleted successfully"

  function DeletedText(id: int): (s: string)
    ensures StartsWith(s, DeletedPrefix) && EndsWith(s, DeletedSuffix)
    ensures |s| == |DeletedPrefix| + |Decimal.IntToString(id)| + |DeletedSuffix|
  {
    DeletedPrefix + Decimal.IntToString(id) + DeletedSuffix
  }

  /** `deleteProduct`, given `thrown`: the message of what the service's delete threw, if it threw. */
  function DeleteProduct(id: int, thrown: Option<string>): (r: Response)
    ensures r.status == StatusOk <==> thrown.None?
    ensures thrown.None? ==>
              r.body.Message?
              && var s := r.body.text;
              StartsWith(s, DeletedPrefix) && EndsWith(s, DeletedSuffix)
              && |DeletedPrefix| <= |s| - |DeletedSuffix|
              && var digits := s[|DeletedPrefix|..|s| - |DeletedSuffix|];
              Decimal.IsDecimal(digits) && Decimal.ParseInt(digits) == id
    ensures thrown.Some? ==> r == BadRequest(thrown.value)
  {
    if thrown.Some? then BadRequest(thrown.value)
    else
      DeletedTextNamesId(id);
      Response(StatusOk, Message(DeletedText(id)))
  }

  /** The confirmation names the deleted id: the digits between the fixed texts read back as `id`. */
  lemma DeletedTextNamesId(id: int)
    ensures var s := DeletedText(id);
            var digits := s[|DeletedPrefix|..|s| - |DeletedSuffix|];
            Decimal.IsDecimal(digits) && Decimal.ParseInt(digits) == id
  {
    var s := DeletedText(id);
    assert s[|DeletedPrefix|..|s| - |DeletedSuffix|] == Decimal.IntToString(id);
    Decimal.IntToStringRoundTrip(id);
  }

  /** Different ids get different confirmations. */
  lemma DeletedTextInjective(a: int, b: int)
    requires DeletedText(a) == DeletedText(b)
    ensures a == b
  {
    DeletedTextNamesId(a);
    DeletedTextNamesId(b);
  }
}
