# Product image upload, modelled in Dafny

This project models the image-upload path of the shop application's `ProductController`. It covers four parts of the controller:

- **`uploadImages`**:
  - looks the product up;
  - treats a null file list as empty;
  - rejects lists longer than the per-product image limit;
  - walks the files in submission order. Empty files are skipped. The request stops with 413 at an oversized file, with 415 at a non-image, and with 400 when storing or registering a file fails. Every other file is stored under a fresh name and registered with the product service.
- **`storeFile`**: checks the file again, builds the name `<uuid>_<cleaned original name>`, creates the `uploads` directory if it is missing, and writes the file there.
- **`isImageFile`**: the `image/` content-type test.
- **`deleteProduct`**: its confirmation message and its mapping of failures to 400.

The project has four modules:

- `Wrappers` holds `Option` and `Result`.
- `Decimal` renders a Java integer in decimal with ASCII digits, as string concatenation does, and reads it back.
- `ProductController` holds the model itself:
  - **State.** The data types, plus two classes for the state that changes in place. `UploadDirectory` records whether the directory exists and which names were written, in order. `ProductService` holds the lookups it answers and the image records it has created.
  - **Specification functions.** `StepOf` gives what the loop body does with one file. `Run` gives the whole loop. `Upload` gives the whole request.
  - **Imperative methods.** `UploadImages`, its loop `StoreEach`, its loop body `ProcessFile` and `UploadDirectory.StoreFile` change that state, and each is proved to do exactly what the specification functions say.
- `UploadProperties` states what the upload promises, as lemmas about `Upload` and `Run`.

The collaborators whose code is not visible are passed in as parameters:

- `IProductService.getProductById` and `createProductImage` are functions from their arguments to a `Result`. A thrown exception appears as its message.
- `UUID.randomUUID()` is `uuid(k)`, the id drawn by the k-th successful call to `storeFile` in the request.
- `StringUtils.cleanPath` is an uninterpreted `string -> string`.
- `ProductImage.MAXIMUM_IMAGES_OF_PRODUCT` is the parameter `maxImages`. `src/main/java/com/nguyenanhtuyen/shopapp/models/ProductImage.java` is not part of this model.

Two details of the code are easy to miss:

- `storeFile` rejects only a missing (null) original file name. An empty name passes.
- The stored name is built from the *cleaned* original name, not the raw one.

## Model

| member | source | states |
|---|---|---|
| ProductController.IsImageFileIff | src/main/java/com/nguyenanhtuyen/shopapp/controllers/ProductController.java:176-179 | `isImageFile` holds exactly when a content type is present and has the form `image/<subtype>` |
| ProductController.StoreFileName | src/main/java/com/nguyenanhtuyen/shopapp/controllers/ProductController.java:148-157 | `storeFile` succeeds exactly when the file is an image with a client file name; otherwise it fails with "Invalid image format". On success the name starts with the id, ends with `_` plus the cleaned name, and is exactly as long as those parts together |
| ProductController.UploadDirectory.StoreFile | src/main/java/com/nguyenanhtuyen/shopapp/controllers/ProductController.java:148-174 | On failure the directory is unchanged. On success the directory exists afterwards, and exactly the returned name is appended to the names written |
| ProductController.StepOf | src/main/java/com/nguyenanhtuyen/shopapp/controllers/ProductController.java:113-137 | A file is skipped exactly when it is empty. A file that ends the request never gets a 200 response and leaves at most one file written |
| ProductController.Upload | src/main/java/com/nguyenanhtuyen/shopapp/controllers/ProductController.java:99-146 | The whole request as a function: a failed lookup answers 400, a null list is the empty list (`FileList`), more files than the limit answer 400 with the count message (`TooManyText`), and otherwise the loop `Run` decides. Files are written only after the lookup and the count check pass; at most one written file is left without a record; a 200 answer lists exactly the records created, one per file written |
| ProductController.Run | src/main/java/com/nguyenanhtuyen/shopapp/controllers/ProductController.java:111-138 | The loop writes at most one file more than it registers, writes no more files than it was given, and registers every written file unless it stopped early. A response that stops it is never 200 |
| ProductController.ProcessFile | src/main/java/com/nguyenanhtuyen/shopapp/controllers/ProductController.java:111-138 | One pass of the loop body does what `StepOf` says: it writes the step's names to the directory and creates the step's records, and nothing else |
| ProductController.StoreEach | src/main/java/com/nguyenanhtuyen/shopapp/controllers/ProductController.java:109-140 | The imperative loop stops with `Run`'s response and returns `Run`'s records. The directory and the service receive exactly `Run`'s files and records, in order |
| ProductController.UploadImages | src/main/java/com/nguyenanhtuyen/shopapp/controllers/ProductController.java:99-146 | The endpoint answers `Upload`'s response. It leaves the directory holding `Upload`'s files and the service holding `Upload`'s records, appended to what was there before |
| ProductController.DeletedText | src/main/java/com/nguyenanhtuyen/shopapp/controllers/ProductController.java:195 | The confirmation starts with "Product with id = ", ends with " deleted successfully", and holds exactly the decimal rendering of the id between them |
| ProductController.DeleteProduct | src/main/java/com/nguyenanhtuyen/shopapp/controllers/ProductController.java:191-199 | The response is 200 exactly when the service's delete did not throw. Its body is then a message of the form "Product with id = <digits> deleted successfully" whose digits read back as the deleted id. Otherwise it is 400 with the exception's message |
| ProductController.DeletedTextNamesId | src/main/java/com/nguyenanhtuyen/shopapp/controllers/ProductController.java:195 | The text between the fixed parts of the confirmation is a decimal number that reads back as the deleted id |
| ProductController.DeletedTextInjective | src/main/java/com/nguyenanhtuyen/shopapp/controllers/ProductController.java:195 | Different ids get different confirmations |
| Decimal.IntToStringRoundTrip | src/main/java/com/nguyenanhtuyen/shopapp/controllers/ProductController.java:195 | Reading back the decimal rendering of an integer gives the integer |
| Decimal.IntToStringInjective | src/main/java/com/nguyenanhtuyen/shopapp/controllers/ProductController.java:195 | Distinct integers render differently |
| Decimal.ParseNatToString | src/main/java/com/nguyenanhtuyen/shopapp/controllers/ProductController.java:107 | Reading back the digits of a natural number gives the number |
| UploadProperties.LookupFailure | src/main/java/com/nguyenanhtuyen/shopapp/controllers/ProductController.java:102-143 | When the product lookup throws, the answer is 400 with the exception's message, and nothing is written or registered |
| UploadProperties.CountCheck | src/main/java/com/nguyenanhtuyen/shopapp/controllers/ProductController.java:105-108 | More files than the limit, empty ones included, give 400 with the count message, and nothing is written or registered. A list of at most the limit, exactly the limit included, goes on to the loop |
| UploadProperties.TooManyTextNamesLimit | src/main/java/com/nguyenanhtuyen/shopapp/controllers/ProductController.java:105-108 | The number in the count message reads back as the limit |
| UploadProperties.NullListIsEmptyList | src/main/java/com/nguyenanhtuyen/shopapp/controllers/ProductController.java:104-140 | A null list is handled as the empty list. Once the product is found (and the limit is non-negative), the answer is 200 with no records and nothing written |
| UploadProperties.EmptyFilesIgnored | src/main/java/com/nguyenanhtuyen/shopapp/controllers/ProductController.java:113-115 | The loop over the files behaves exactly as the loop over the non-empty ones: empty files are never stored, registered or reported |
| UploadProperties.AllEmptyAccepted | src/main/java/com/nguyenanhtuyen/shopapp/controllers/ProductController.java:111-140 | A list of only empty files within the limit gets 200 with no records, and nothing is written |
| UploadProperties.RunAppend | src/main/java/com/nguyenanhtuyen/shopapp/controllers/ProductController.java:111-138 | The loop over `first + rest` is the loop over `first`. If that did not stop, it continues over `rest` with the ids already drawn. Nothing done before a stop is undone, and nothing after it is looked at |
| UploadProperties.FirstOversizeStops | src/main/java/com/nguyenanhtuyen/shopapp/controllers/ProductController.java:118-121 | A non-empty file over 10 MiB, whatever its content type, ends the request with 413 and the size message. The files before it stay written and registered, and the files after it are not touched |
| UploadProperties.NonImageStops | src/main/java/com/nguyenanhtuyen/shopapp/controllers/ProductController.java:124-127 | A non-empty file within the size limit whose content type is missing or not `image/...` ends the request with 415. Earlier effects are kept |
| UploadProperties.MissingNameStops | src/main/java/com/nguyenanhtuyen/shopapp/controllers/ProductController.java:150-152 | An image without a client file name ends the request with 400 "Invalid image format" and is not written |
| UploadProperties.RegistrationFailureKeepsFile | src/main/java/com/nguyenanhtuyen/shopapp/controllers/ProductController.java:130-143 | When the service refuses to register a stored file, the request ends with 400 and the service's message. The file stays written, with no record for it |
| UploadProperties.GoodThenOversizeKeepsFirst | src/main/java/com/nguyenanhtuyen/shopapp/controllers/ProductController.java:111-121 | No rollback: under any limit of at least two, a good image followed by an oversized file gets 413, yet the first image stays written and registered |
| UploadProperties.AcceptIffPasses | src/main/java/com/nguyenanhtuyen/shopapp/controllers/ProductController.java:113-137 | A non-empty file is stored and registered exactly when it is within the size limit, an image, named, and accepted by the service, under the name `storeFile` gave it |
| UploadProperties.AllPassIff | src/main/java/com/nguyenanhtuyen/shopapp/controllers/ProductController.java:111-138 | "Every file passes" means that the j-th file passes with the j-th id drawn |
| UploadProperties.RunOkIffAllPass | src/main/java/com/nguyenanhtuyen/shopapp/controllers/ProductController.java:111-138 | Over non-empty files, the loop gets through exactly when every file passes |
| UploadProperties.RunOkRecords | src/main/java/com/nguyenanhtuyen/shopapp/controllers/ProductController.java:109-137 | When the loop gets through, the j-th name written is the name `storeFile` gave the j-th file, and the j-th record is what the service registered under that name |
| UploadProperties.RunSucceeds | src/main/java/com/nguyenanhtuyen/shopapp/controllers/ProductController.java:109-140 | For any list, the loop gets through exactly when every non-empty file passes. It then has one name and one record per non-empty file, in submission order |
| UploadProperties.UploadSucceeds | src/main/java/com/nguyenanhtuyen/shopapp/controllers/ProductController.java:99-146 | Once the product is found and the count is within the limit, the answer is 200 exactly when every non-empty file passes. A 200 answer returns exactly the records created, one per non-empty file, each registered under the name its file was written as |
| UploadProperties.UploadStatuses | src/main/java/com/nguyenanhtuyen/shopapp/controllers/ProductController.java:99-146 | The endpoint answers only 200, 400, 413 or 415. A 200 answer lists exactly the records created, one per file written |
| UploadProperties.RunStatuses | src/main/java/com/nguyenanhtuyen/shopapp/controllers/ProductController.java:111-138 | A response that stops the loop is 400, 413 or 415 |
| UploadProperties.StoredNameSplits | src/main/java/com/nguyenanhtuyen/shopapp/controllers/ProductController.java:154-157 | When the id has no `_` (a UUID has none), the text before the first `_` of a stored name is the id, and the text after it is the cleaned name |
| UploadProperties.DistinctIdsDistinctNames | src/main/java/com/nguyenanhtuyen/shopapp/controllers/ProductController.java:156-157 | Files stored under different ids get different names, so one never overwrites the other |

## Left out

- `getProducts`, `getProductById`, `createProduct` and `updateProduct` are left out. They only call the product service and turn its result, or any exception, into a response. Routing, `@Valid`/`BindingResult` handling and multipart binding are Spring plumbing.
- `generateFakeProducts` is left out. It is not reachable (its mapping is commented out) and it uses the Faker library.
- Disk I/O is reduced to its effect on the `uploads` directory: whether the directory exists, and the names written, in order.
- `storeFile` can also fail inside `Files.exists`, `createDirectories` or `copy`. Those failures are not modelled.
- The bytes of each file are not modelled. Neither is `REPLACE_EXISTING` overwriting an existing file, since no file contents are kept.
- The randomness of `UUID.randomUUID()` is not modelled: the k-th id is `uuid(k)`. Uniqueness appears only as the hypothesis of `UploadProperties.DistinctIdsDistinctNames`.
- `StringUtils.cleanPath` is left uninterpreted.
- `ProductImage.MAXIMUM_IMAGES_OF_PRODUCT` is a parameter, because the file that defines it is not part of this model.
- The product service is reduced to the answers it gives: `getProductById` as a lookup function, and `createProductImage` as a function of the product id and the image name. Its field `created` logs only the image records created by the calls modelled here; the rest of its state and the `ProductImageDTO` it is handed are not modelled.
- An exception whose message is `null` is not modelled. Every failure carries a message string.
- Ids are unbounded integers. A Java `long` renders the same way within its range.
- `deleteProduct`'s `%d` is modelled for a default locale whose digits are ASCII `0`-`9`. `String.format` uses the default locale's digits, so a server whose locale uses other digits would send a different confirmation.
- Concurrent requests sharing the `uploads` directory are not modelled.
- The `for` loop of `uploadImages` is modelled as the method `StoreEach`, and its body as `ProcessFile`. The loop still runs in one place with the same early returns.
