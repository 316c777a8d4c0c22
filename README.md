# simpleVMWebGateway backend registry, in Dafny

The gateway configures an OpenResty reverse proxy for research VMs. Each proxied service
("backend") is one configuration file in a backend directory. The file's **name** carries the
backend's record: id, owner, location URL, template, template version and, in the FastAPI
generation, the authorization flag. This model covers the core of both generations of the
service layer:

- the file-name codec and the directory scan that turns a listing into backends;
- the lookups by id, the location-URL suffix allocator and the random id;
- the `proxy_pass` extraction and the grouping of backends by upstream;
- create, delete, duplicate removal and the authorization update (FastAPI);
- the older five-field codec with create and delete (Flask);
- request validation in both generations;
- the template listing;
- the per-backend user allow-lists, with their integer return codes.

The directory is a `DirView` value (`Storage.Directory` as an object):
- whether it exists and may be written;
- its listing as a sequence of names, in listing order;
- the text of each file.

The proxy is a `Storage.Proxy` object whose reload count the operations raise. Template
rendering is a function parameter that may fail (`None` or empty text). Every operation that
loops in the source is a `method` with a loop. Each such method is proved equal to a
specification function. The lemmas state what the source promises about those functions.

Four consequences of the code are proved as stated:

- **Update can leave two files with one id.** `update_backend_authorization` rebuilds a backend
  with its upstream stripped of any path. The duplicate check, however, compares the raw
  `proxy_pass` of the existing files. So an update of a backend whose `proxy_pass` has a path
  keeps the old file and, when the update flips the auth flag (which is part of the file name),
  writes a second one with the same id. After that, every delete of the
  id is refused because it finds two files (`Divergence.UpdateLeavesTwoFiles`).
- **An empty id stops a delete.** The id pattern `\d*` admits an empty id. `int("")` then raises
  while `delete_backend` filters by id (`Registry.FilterByIdMeaning`).
- **One badly owned file stops every scan.** `get_backends` rebuilds each matching file name as a
  `BackendOut`, whose validator demands an owner of at least 30 characters, and whose `id` must
  read as an int. A listed file with a shorter owner, or an empty id, makes it raise a
  ValidationError. This also happens to lookups, suffix allocation, duplicate removal, create
  and update (`Registry.ShortOwnerStopsScan`). The file name the service tests use,
  `1234567890%testuser%animal_100%testtemplate%v01%0.conf`, is such a file
  (`Registry.TestFileStopsScan`).
- **A second delete answers False, not NotFound.** Deleting the same id twice makes the second
  call answer False rather than NotFound when no validly named file remains
  (`Lifecycle.DeleteTwice`).

## Model

| member | source | states |
|---|---|---|
| Serializers.OwnerValidation | FastapiOpenRestyConfigurator/app/main/model/serializers.py:29-68 | the owner is returned unchanged exactly when it is at least 30 of `[a-zA-Z0-9@.-]`, otherwise the error names the owner field |
| Serializers.UserKeyUrlValidation | FastapiOpenRestyConfigurator/app/main/model/serializers.py:88-98 | the user key is returned unchanged exactly when it is 3 to 25 ASCII letters or digits |
| Serializers.UpstreamUrlValidation | FastapiOpenRestyConfigurator/app/main/model/serializers.py:100-109 | the upstream URL is returned unchanged exactly when it matches the upstream pattern |
| Serializers.UserKeyUrlHasNoSeparators | FastapiOpenRestyConfigurator/app/main/model/serializers.py:30 | an accepted user key holds neither '_' nor '%', so it cannot break the location URL or the file name |
| Serializers.UpstreamUrlShape | FastapiOpenRestyConfigurator/app/main/model/serializers.py:31 | the upstream pattern holds exactly for `http://` or `https://` followed by at least one allowed character |
| Serializers.NewBackendIn | FastapiOpenRestyConfigurator/app/main/model/serializers.py:71-109 | a request is built exactly when all three validators pass and then holds the given fields; otherwise the error lists the failing fields, the owner among them exactly when the owner is invalid |
| Patterns.UrlAtomsAreUrlChars | FastapiOpenRestyConfigurator/app/main/model/serializers.py:31 | the repeated alternation of the upstream pattern matches exactly the non-empty runs of allowed characters |
| FlaskValidate.ValidateReportsFirstFailure | FlaskOpenRestyConfigurator/app/main/util/validate.py:10-24 | the check answers okay exactly when owner, user key and upstream URL all pass, and otherwise names the first failing field in that order |
| FlaskValidate.FlaskOwnerIsPlain | FlaskOpenRestyConfigurator/app/main/util/validate.py:3 | an accepted Flask owner has no '%', no '_' and no capital letter |
| Serializers.NewBackendOut | FastapiOpenRestyConfigurator/app/main/model/serializers.py:57-127 | a BackendOut is built exactly when the owner passes the inherited owner validator and the id reads as an int; it then holds the given fields; otherwise the error names the owner exactly when it is invalid and the id exactly when it does not read |
| Codec.SplitFileName | FastapiOpenRestyConfigurator/app/main/service/backend.py:58-60 | a file name built from fields without '%' splits on '%' into exactly those six fields |
| Codec.DecodeFileName | FastapiOpenRestyConfigurator/app/main/service/backend.py:22 | the name `generate_backend_filename` gives an encodable record decodes back to that record, with the file path joined on |
| Codec.FileNameOfDecoded | FastapiOpenRestyConfigurator/app/main/service/backend.py:82-90 | every decoded name is the file name of its record, and that record is encodable |
| Codec.DecodesIffEncodable | FastapiOpenRestyConfigurator/app/main/service/backend.py:22 | a record's file name is accepted by `filename_regex` exactly when the record is encodable |
| Codec.NoPercentNoMatch | FastapiOpenRestyConfigurator/app/main/service/backend.py:76-81 | a name without '%', such as `users` or `scripts`, is never a backend file |
| Codec.CapitalOwnerIsSkipped | FastapiOpenRestyConfigurator/app/main/service/backend.py:22 | a record whose owner has a capital letter, which the owner validator accepts, is not found again by the scan |
| Registry.Scan | FastapiOpenRestyConfigurator/app/main/service/backend.py:74-93 | the records the matching names give, before BackendOut validates them: at most one per listed name |
| Registry.Checked | FastapiOpenRestyConfigurator/app/main/service/backend.py:82-91 | rebuilding the scanned records as BackendOut either gives back exactly those records or fails with a ValidationError |
| Registry.CheckedMeaning | FastapiOpenRestyConfigurator/app/main/service/backend.py:82-91 | the rebuilding fails exactly when some record is rejected, and then with the error of the first rejected record |
| Registry.CheckedAfterValid | FastapiOpenRestyConfigurator/app/main/service/backend.py:82-91 | accepted records in front of others do not change whether, or how, validating those fails |
| Registry.ListedMeaning | FastapiOpenRestyConfigurator/app/main/service/backend.py:66-93 | get_backends returns the scanned records exactly when BackendOut accepts every one, and otherwise raises the error of the first rejected one in listing order |
| Registry.ShortOwnerStopsScan | FastapiOpenRestyConfigurator/app/main/service/backend.py:82-90 | a listed backend file whose owner has fewer than 30 characters makes get_backends raise a ValidationError |
| Registry.TestFileStopsScan | FastapiOpenRestyConfigurator/app/main/tests/test_service_backend.py:10 | a directory listing the tests' file `1234567890%testuser%...%0.conf` makes get_backends raise |
| Registry.ScanStopsAt | FastapiOpenRestyConfigurator/app/main/service/backend.py:75-91 | when the loop reaches a record BackendOut rejects after accepting all before it, get_backends raises that record's error |
| Registry.GetBackends | FastapiOpenRestyConfigurator/app/main/service/backend.py:66-93 | the loop returns what get_backends returns: [] for a missing or empty directory, the error of the first record BackendOut rejects, otherwise the decoded names in order |
| Registry.ScanAppend | FastapiOpenRestyConfigurator/app/main/service/backend.py:75-92 | the scan distributes over concatenation, so listing order is kept |
| Registry.ScanMembership | FastapiOpenRestyConfigurator/app/main/service/backend.py:75-92 | a backend is scanned exactly when some listed name decodes to it |
| Registry.BackendsAreListedFiles | FastapiOpenRestyConfigurator/app/main/service/backend.py:66-93 | every backend reported is encodable and its own file name is listed and has a file, with the path joined on |
| Registry.FindByIdFirst | FastapiOpenRestyConfigurator/app/main/service/backend.py:96-101 | the lookup returns the first backend whose id reads as the requested number; NotFound exactly when every id reads as another number; only NotFound or ValueError otherwise |
| Registry.FindByIdParsed | FastapiOpenRestyConfigurator/app/main/service/backend.py:96-101 | over records whose ids all read as numbers, the lookup fails only with NotFound |
| Registry.BackendByIdMeaning | FastapiOpenRestyConfigurator/app/main/service/backend.py:96-101 | get_backend_by_id raises only get_backends' ValidationError or NotFound; a found backend is scanned and has the id; NotFound exactly when get_backends succeeds and no backend has the id |
| Registry.GetBackendById | FastapiOpenRestyConfigurator/app/main/service/backend.py:96-101 | the loop returns get_backends' error, or the first backend of the id among its records |
| Registry.GetFilePathById | FastapiOpenRestyConfigurator/app/main/service/backend.py:118-125 | the loop returns the file path of the backend get_backend_by_id finds, or its error |
| Registry.MatchingNames | FastapiOpenRestyConfigurator/app/main/service/backend.py:308-319 | the names kept are exactly the listed names `filename_regex` accepts |
| Registry.GetValidBackendFilenames | FastapiOpenRestyConfigurator/app/main/service/backend.py:297-345 | the loop returns None for a missing or empty directory, otherwise the accepted names in order |
| Registry.FilterByIdMeaning | FastapiOpenRestyConfigurator/app/main/service/backend.py:348-350 | the filter succeeds exactly for an empty list, or when the requested id and every name's first field read as numbers; it then keeps exactly the names of the id; it fails only with ValueError |
| Registry.FilterByIdKeepsAll | FastapiOpenRestyConfigurator/app/main/service/backend.py:348-350 | names that all carry the id are all kept |
| Upstream.MatchAtIff | FastapiOpenRestyConfigurator/app/main/service/backend.py:136 | matching `proxy_pass\s+(http[^\s;]+);` at a position succeeds with a URL exactly when a directive for that URL starts there |
| Upstream.ExtractProxyPassFirst | FastapiOpenRestyConfigurator/app/main/service/backend.py:131-142 | the extracted URL belongs to the first directive in the text, and None means the text has no directive |
| Upstream.StripPathMeaning | FastapiOpenRestyConfigurator/app/main/service/backend.py:145-153 | the upstream URL is a prefix of the `proxy_pass`, has at most three '/'-fields, leaves a URL without a path unchanged and is idempotent |
| Upstream.StripPathOfSubPath | FastapiOpenRestyConfigurator/app/main/service/backend.py:152 | `scheme//host/path` is cut back to `scheme//host` |
| Upstream.BaseKeyOfLocation | FastapiOpenRestyConfigurator/app/main/service/backend.py:156-163 | the base key of `key_suffix` is `key` when the suffix has no '_' |
| Upstream.LocationOfBaseKey | FastapiOpenRestyConfigurator/app/main/service/backend.py:156-163 | a location URL is its base key, '_' and its second '_'-field when the key has no '_' |
| Upstream.GroupsAreFilters | FastapiOpenRestyConfigurator/app/main/service/backend.py:104-115 | an upstream is a key of the grouping exactly when some backend's `proxy_pass` is that non-empty URL, and its group is those backends in scan order |
| Upstream.GetBackendsUpstreamUrls | FastapiOpenRestyConfigurator/app/main/service/backend.py:104-115 | the loop returns get_backends' error, or builds exactly that grouping of its records |
| Allocation.RandomWithNDigits | FastapiOpenRestyConfigurator/app/main/service/backend.py:28-32 | the draw lies in [10^(n-1), 10^n - 1] |
| Allocation.FreshIdShape | FastapiOpenRestyConfigurator/app/main/service/backend.py:261 | a fresh id has ten digits, does not start with 0, and int() reads it back |
| Allocation.SuffixesForMeaning | FastapiOpenRestyConfigurator/app/main/service/backend.py:43-45 | when the scan of suffixes succeeds, it holds exactly the suffixes of the location URLs whose first '_'-field is the key, and is empty exactly when no URL has the key |
| Allocation.SuffixesForSticky | FastapiOpenRestyConfigurator/app/main/service/backend.py:43-45 | the first location URL that fails to give a suffix decides the error of the whole scan |
| Allocation.NextSuffixMeaning | FastapiOpenRestyConfigurator/app/main/service/backend.py:46-55 | "100" when no suffix is in use; an error exactly when the highest is 999; otherwise a number above every suffix in use, within 100..999 when they are |
| Allocation.SuffixSpecMeaning | FastapiOpenRestyConfigurator/app/main/service/backend.py:36-55 | "100" without a key; with a key, get_backends' error when it raises, "100" for an unused key; every allocated suffix parses and lies above every suffix in use for the key |
| Allocation.SuffixesSpecMeaning | FastapiOpenRestyConfigurator/app/main/service/backend.py:43-55 | the same two facts for any list of location URLs |
| Allocation.GenerateSuffixNumber | FastapiOpenRestyConfigurator/app/main/service/backend.py:36-55 | the loop returns the allocated suffix |
| Lifecycle.DeleteBackend | FastapiOpenRestyConfigurator/app/main/service/backend.py:200-224 | the method's result, directory and reload count are those of the delete specification |
| Lifecycle.DeleteFalseIffNoValidName | FastapiOpenRestyConfigurator/app/main/service/backend.py:201-203 | delete answers False exactly when the directory is missing or no listed name is a backend file |
| Lifecycle.FilesOfId | FastapiOpenRestyConfigurator/app/main/service/backend.py:205 | the names the filter keeps are exactly the listed backend files of the id |
| Lifecycle.DeleteNotFoundMeaning | FastapiOpenRestyConfigurator/app/main/service/backend.py:208-209 | NotFound means no listed backend file carries the id |
| Lifecycle.DeleteMultipleMeaning | FastapiOpenRestyConfigurator/app/main/service/backend.py:210-212 | the multiple-files error means two different listed files carry the id |
| Lifecycle.DeleteSuccessShape | FastapiOpenRestyConfigurator/app/main/service/backend.py:214-221 | a successful delete filtered exactly one name, removed it and reloaded once |
| Lifecycle.DeleteRemovesOnlyMatch | FastapiOpenRestyConfigurator/app/main/service/backend.py:214-221 | success removes the one file of the id, shortens the listing by one and reloads once |
| Lifecycle.DeleteFrame | FastapiOpenRestyConfigurator/app/main/service/backend.py:200-224 | every answer but True leaves directory and reloads unchanged, and the directory stays well formed |
| Lifecycle.DeleteGuard | FastapiOpenRestyConfigurator/app/main/service/backend.py:200-224 | all answers of delete with their meaning, in one statement |
| Lifecycle.MatchingNamesDistinct | FastapiOpenRestyConfigurator/app/main/service/backend.py:330-345 | keeping the accepted names of a listing without repeats has no repeats |
| Lifecycle.FilterByIdDistinct | FastapiOpenRestyConfigurator/app/main/service/backend.py:348-350 | filtering by id keeps a list free of repeats |
| Lifecycle.DeleteWithoutFileOfId | FastapiOpenRestyConfigurator/app/main/service/backend.py:200-209 | with no file of the id and readable ids, delete answers NotFound or False |
| Lifecycle.DeleteTwice | FastapiOpenRestyConfigurator/app/main/service/backend.py:200-224 | a second delete of the same id answers NotFound, or False exactly when no backend file is left |
| Lifecycle.DeleteParsedIds | FastapiOpenRestyConfigurator/app/main/service/backend.py:350 | a successful delete implies the id and every listed backend file's id were read as numbers |
| Lifecycle.NoFileOfIdAfterRemove | FastapiOpenRestyConfigurator/app/main/service/backend.py:218 | removing the only file of an id leaves none, and adds no name |
| Lifecycle.DeleteEachCounts | FastapiOpenRestyConfigurator/app/main/service/backend.py:272-276 | deleting a group removes exactly one file per reload, at most one per member; on success the answer is True exactly when every delete answered True, one reload each |
| Lifecycle.DeleteDuplicateBackends | FastapiOpenRestyConfigurator/app/main/service/backend.py:267-276 | the loop's result, directory and reloads are those of duplicate removal for the upstream, and a well-formed directory stays well formed |
| Lifecycle.DeleteDuplicatesKeepWellFormed | FastapiOpenRestyConfigurator/app/main/service/backend.py:267-276 | duplicate removal keeps a well-formed directory well formed, whatever it answers |
| Lifecycle.CreateBackend | FastapiOpenRestyConfigurator/app/main/service/backend.py:169-197 | the method's result, directory and reloads are those of create; a fresh id is a ten-digit draw |
| Lifecycle.PinnedCreateIgnoresDraw | FastapiOpenRestyConfigurator/app/main/service/backend.py:255-264 | with id and location pinned by an update, create does not depend on the random draw |
| Lifecycle.FreshCreateShape | FastapiOpenRestyConfigurator/app/main/service/backend.py:169-197 | a successful fresh create returns the request with the drawn id and `key_suffix` location, and wrote the text the template rendered for them as one new file after duplicate removal, reloading once more |
| Lifecycle.WrittenFileIsListed | FastapiOpenRestyConfigurator/app/main/service/backend.py:192-193 | a written file whose name decodes is scanned afterwards |
| Lifecycle.NewFileIsListed | FastapiOpenRestyConfigurator/app/main/service/backend.py:190-193 | when the directory may be written, the id is all digits, the owner uses only the file-name pattern's owner characters `[a-z0-9-@.]`, and location, template and version hold no '%', the file create writes is scanned back as a backend with the request's fields |
| Lifecycle.CreatedBackendIsListed | FastapiOpenRestyConfigurator/app/main/service/backend.py:169-197 | after a fresh create the ten-digit id parses back to the draw, the location's base key is the user key, and, when the owner uses only the characters `[a-z0-9-@.]` and template and version hold no '%', the new backend is scanned with the request's fields; BackendOut accepts it exactly when it accepts the request's owner |
| Lifecycle.ConvertBackendTempToOut | FastapiOpenRestyConfigurator/app/main/service/backend.py:279-294 | the conversion follows its specification: the validated BackendOut with the file path the lookup finds, or None when anything raises |
| Lifecycle.UpdateBackendAuthorization | FastapiOpenRestyConfigurator/app/main/service/backend.py:227-249 | the method's result, directory and reloads are those of the update specification |
| Lifecycle.BuildPayloadMeaning | FastapiOpenRestyConfigurator/app/main/service/backend.py:353-374 | the rebuilt request keeps owner, template and version, uses the base key and the stripped `proxy_pass`, sets the new flag, and passes validation |
| Lifecycle.UpdateKeepsRecord | FastapiOpenRestyConfigurator/app/main/service/backend.py:227-249 | a successful update returns the found backend with the same id, owner, location, template and version and the new flag |
| Divergence.UpdateLeavesTwoFiles | FastapiOpenRestyConfigurator/app/main/service/backend.py:104-115 | with one backend whose `proxy_pass` has a path, an update that flips its auth flag succeeds, leaves two files of the id, and a later delete is refused |
| Divergence.StrippedUrlHasNoDuplicates | FastapiOpenRestyConfigurator/app/main/service/backend.py:186 | duplicate removal for the stripped URL finds no file whose `proxy_pass` has a path |
| Divergence.PinnedCreateWrites | FastapiOpenRestyConfigurator/app/main/service/backend.py:255-259 | the pinned create writes the rewritten record's file beside the old one |
| Divergence.BothFilesOfId | FastapiOpenRestyConfigurator/app/main/service/backend.py:210-212 | with both files listed, a delete of the id answers the multiple-files error |
| Divergence.RewrittenIsNewFile | FastapiOpenRestyConfigurator/app/main/service/backend.py:59 | the rewritten record's file name differs from the old one and carries the same id |
| Divergence.UpdateBuildsRequest | FastapiOpenRestyConfigurator/app/main/service/backend.py:228-233 | the update finds the one backend and builds its request with the stripped URL |
| Divergence.UpdateIsPinnedCreate | FastapiOpenRestyConfigurator/app/main/service/backend.py:238-247 | once found and rebuilt, an update is the create with id and location pinned |
| FlaskBackend.FlaskDecodeFileName | FlaskOpenRestyConfigurator/app/main/service/backend.py:14 | the five-field name of an encodable record decodes back to it |
| FlaskBackend.FlaskFileNameOfDecoded | FlaskOpenRestyConfigurator/app/main/service/backend.py:35-43 | every decoded name is the file name of its encodable record |
| FlaskBackend.FlaskNoPercentNoMatch | FlaskOpenRestyConfigurator/app/main/service/backend.py:35-38 | a name without '%' is not a backend file |
| FlaskBackend.GetBackends | FlaskOpenRestyConfigurator/app/main/service/backend.py:24-45 | the loop returns None for a missing directory, [] for an empty one, otherwise the decoded names in order |
| FlaskBackend.FlaskBackendsMeaning | FlaskOpenRestyConfigurator/app/main/service/backend.py:24-45 | None exactly without a directory; a record is listed exactly when some name decodes to it, and then its own file name is listed |
| FlaskBackend.FlaskSuffixMissingDir | FlaskOpenRestyConfigurator/app/main/service/backend.py:49-52 | allocation fails with TypeError exactly when the directory is missing |
| FlaskBackend.FlaskSuffixUnusedKey | FlaskOpenRestyConfigurator/app/main/service/backend.py:56-57 | "100" when no listed backend's location uses the key |
| FlaskBackend.FlaskSuffixAbove | FlaskOpenRestyConfigurator/app/main/service/backend.py:48-65 | an allocated suffix parses and lies above every suffix a listed backend uses for the key |
| FlaskBackend.GenerateSuffixNumber | FlaskOpenRestyConfigurator/app/main/service/backend.py:48-65 | the loop returns the allocated suffix |
| FlaskBackend.CreateBackend | FlaskOpenRestyConfigurator/app/main/service/backend.py:70-105 | the method's result, directory and reloads are those of createBackend as written; the id is a ten-digit draw |
| FlaskBackend.DuplicateCheckStopsAtForeignName | FlaskOpenRestyConfigurator/app/main/service/backend.py:85-90 | the duplicate check as written stops with an error at or before any listed name `fileRegex` rejects |
| FlaskBackend.UsersFolderBlocksCreate | FlaskOpenRestyConfigurator/app/main/service/backend.py:85-90 | once `users` is listed, createBackend as written fails for every request and changes nothing |
| FlaskBackend.DuplicateErrorSkippingMeaning | FlaskOpenRestyConfigurator/app/main/service/backend.py:85-90 | the corrected check refuses exactly when a listed backend has the new id or location URL |
| FlaskBackend.ChecksAgreeOnBackendFiles | FlaskOpenRestyConfigurator/app/main/service/backend.py:85-90 | on a listing of backend files only, the corrected check and the one as written agree |
| FlaskBackend.CorrectedCreateAgrees | FlaskOpenRestyConfigurator/app/main/service/backend.py:70-105 | on a listing of backend files only, the corrected create is createBackend as written |
| FlaskBackend.CorrectedCreateSucceeds | FlaskOpenRestyConfigurator/app/main/service/backend.py:70-105 | the corrected create succeeds beside foreign entries when validation, suffix, template, write and the duplicate condition allow it, reloads once, and lists the new backend |
| FlaskBackend.CreatedIsListed | FlaskOpenRestyConfigurator/app/main/service/backend.py:94-101 | when template and version hold no '%', the file written for a created backend is listed afterwards as its record |
| FlaskBackend.DeleteBackend | FlaskOpenRestyConfigurator/app/main/service/backend.py:109-131 | the method's result, directory and reloads are those of deleteBackend |
| FlaskBackend.FirstWithIdMeaning | FlaskOpenRestyConfigurator/app/main/service/backend.py:116-121 | the search finds the first backend file whose id reads as the requested one; nothing exactly when every backend file's id reads as another number; it fails only with ValueError |
| FlaskBackend.FlaskDeleteRemovesFirstMatch | FlaskOpenRestyConfigurator/app/main/service/backend.py:121-127 | a successful delete removes exactly the first backend file of the id, keeps every other name and reloads once |
| FlaskBackend.FlaskDeleteNotFound | FlaskOpenRestyConfigurator/app/main/service/backend.py:113-131 | NotFound exactly when the listing is non-empty and no backend file has the id; nothing changes |
| FlaskBackend.FlaskDeleteKeepsLaterDuplicate | FlaskOpenRestyConfigurator/app/main/service/backend.py:121-127 | with two files of one id, the second survives the delete and a repeated delete does not answer NotFound |
| Templates.GetTemplates | FastapiOpenRestyConfigurator/app/main/service/template.py:20-45 | the loop returns the templates of the specification: [] for an inaccessible or empty directory, TypeError for a version without a name, otherwise the matches in order |
| Templates.TemplatesAreMatches | FastapiOpenRestyConfigurator/app/main/service/template.py:34-45 | the error case exactly; never more templates than files; a template is reported exactly when a listed file matches as it |
| Templates.MatchAllMeaning | FastapiOpenRestyConfigurator/app/main/service/template.py:26 | an unfiltered match is `name%version` followed by one character and "conf", with the greedy name leaving no '%' in the version and no newline in either |
| Templates.TemplateFileRoundTrip | FastapiOpenRestyConfigurator/app/main/service/template.py:25-33 | `name%version.conf` is reported as that template by all three filters when the version has no '%' and neither part has a newline |
| Templates.FilteredTemplatesMatchFilter | FastapiOpenRestyConfigurator/app/main/service/template.py:27-33 | with a name filter every result has that name; with both filters every result is exactly the requested template |
| Templates.NamedMatchMeaning | FastapiOpenRestyConfigurator/app/main/service/template.py:27-29 | a name filter matches exactly the names `name%version` + one character + "conf" without a newline after the name |
| Templates.DotBeforeConfIsWildcard | FastapiOpenRestyConfigurator/app/main/service/template.py:26 | the unescaped '.' lets `web%1Xconf` be listed as template web, version 1 |
| UserFolders.UserFolder.Users | FastapiOpenRestyConfigurator/app/main/service/user.py:14-19 | get_users answers [] without a folder, OSError for an unreadable one, otherwise the entries |
| UserFolders.UserFolder.Add | FastapiOpenRestyConfigurator/app/main/service/user.py:22-42 | add_user's code and new folder are those of the add specification |
| UserFolders.UserFolder.Delete | FastapiOpenRestyConfigurator/app/main/service/user.py:45-68 | delete_user's code and new folder are those of the delete specification |
| UserFolders.UserFolder.DeleteAll | FastapiOpenRestyConfigurator/app/main/service/user.py:71-81 | delete_all's code and new folder are those of its specification |
| UserFolders.OperationsKeepFolderOk | FastapiOpenRestyConfigurator/app/main/service/user.py:22-81 | every operation keeps entries distinct and locked files among the entries |
| UserFolders.AddMeaning | FastapiOpenRestyConfigurator/app/main/service/user.py:22-42 | code 0 exactly when the folder exists or can be made, may be written and read, and lacks the user, who is then appended; codes 1, 2 and 3 with their exact conditions, none adding the user |
| UserFolders.AddTwice | FastapiOpenRestyConfigurator/app/main/service/user.py:34-38 | a second add of the same user answers 3 and changes nothing |
| UserFolders.AddedUserIsListed | FastapiOpenRestyConfigurator/app/main/service/user.py:39-42 | an added user is listed by get_users |
| UserFolders.AddThenDelete | FastapiOpenRestyConfigurator/app/main/service/user.py:45-68 | deleting a user just added answers 0 and restores the users listed before |
| UserFolders.DeleteMeaning | FastapiOpenRestyConfigurator/app/main/service/user.py:45-68 | codes 1, 2 and 0 with their exact conditions; every code but 0 changes nothing; delete never raises |
| UserFolders.DeleteKeepsOthers | FastapiOpenRestyConfigurator/app/main/service/user.py:61-62 | deleting one of several users removes only that user's file and keeps the folder |
| UserFolders.DeleteAllCodes | FastapiOpenRestyConfigurator/app/main/service/user.py:71-81 | delete_all answers 1 exactly without a folder, 0 otherwise, never 3, and a writable folder is gone afterwards |
| UserFolders.LastUserDeleteSwallowsFailure | FastapiOpenRestyConfigurator/app/main/service/user.py:60-68 | on a folder that may not be written, deleting the last user answers 0 and leaves the file, while deleting one of two answers 3 |
| UserFolders.DeleteCorrectedRemovesUser | FastapiOpenRestyConfigurator/app/main/service/user.py:60-68 | with the removal checked, code 0 means the user is gone; it agrees with the code as written on writable folders |
| FastapiUsers.UserFileNameInjective | FastapiOpenRestyConfigurator/app/main/service/user.py:24 | different users get different files, and the file name gives its user back |
| FastapiUsers.AddedUserListedWithDomain | FastapiOpenRestyConfigurator/app/main/service/user.py:22-68 | an added user is listed with the domain suffix, no other user's standing changes, and deleting it restores the listing |
| FastapiUsers.AddUser | FastapiOpenRestyConfigurator/app/main/service/user.py:22-42 | add_user adds the user's file with the domain suffix, as the add specification says |
| FastapiUsers.DeleteUser | FastapiOpenRestyConfigurator/app/main/service/user.py:45-68 | delete_user acts on the user's file with the domain suffix |
| FastapiUsers.GetUsers | FastapiOpenRestyConfigurator/app/main/service/user.py:14-19 | get_users of a backend answers the folder listing as the users specification gives it: [] without a folder, the entries otherwise |
| FastapiUsers.DeleteAll | FastapiOpenRestyConfigurator/app/main/service/user.py:71-81 | delete_all's code and new folder are those of the delete-all specification |
| FlaskUsers.GetUsers | FlaskOpenRestyConfigurator/app/main/service/user.py:13-18 | the Flask get_users answers the same listing as the users specification gives it |
| FlaskUsers.DeleteAll | FlaskOpenRestyConfigurator/app/main/service/user.py:73-83 | the Flask delete_all's code and new folder are those of the delete-all specification, with no reload |
| FlaskUsers.AddUser | FlaskOpenRestyConfigurator/app/main/service/user.py:21-43 | add_user acts on a file named exactly after the user and reloads once exactly when it answers 0 |
| FlaskUsers.DeleteUser | FlaskOpenRestyConfigurator/app/main/service/user.py:46-70 | delete_user reloads once exactly when it answers 0 |
| FlaskUsers.ReloadOnlyAfterChange | FlaskOpenRestyConfigurator/app/main/service/user.py:41-43 | a delete answering anything but 0 changes neither folder nor reloads; an add answering 3 changes nothing; a successful add reloads once and lists the user |

## Left out

- Logging, `async`, and the web layer: views, controllers, data transfer objects and the API key check. Concurrent requests and races between listing and writing are out too.
- Jinja2 rendering is a function parameter that returns optional text. Reloading OpenResty is a counter. Neither's effect beyond that is modelled.
- Python's `\d` is taken as the ASCII digits; `\s` is Python's whitespace set. `int()` reads an optional sign and ASCII digits, without surrounding whitespace or `_` separators.
- Pydantic's type coercion when `BackendOut`/`BackendTemp` are built is not modelled. Ids stay the text the pattern captured and are compared through `int()`. When a `BackendOut` is built, the owner validator runs and the id must read as an int; pydantic's int parsing is taken to be `int()`.
- Serializers.NewBackendIn: the records carry the fields `backend.py` relies on, `auth_enabled` in `BackendIn`/`BackendTemp` and `file_path` in `BackendOut`, not only the ones `serializers.py` declares. With this `serializers.py`, pydantic would drop those keywords and reading them would raise AttributeError; the model follows `backend.py`.
- Lifecycle.CreateBackend: the validators that rerun when `BackendTemp(**payload.model_dump())` is built are not modelled; the payload is taken to be a request that already passed them.
- The backend directory is assumed readable: `os.listdir` raising PermissionError on an existing but unreadable directory is not modelled, in either generation.
- The listing order of `os.listdir` is the sequence order; a newly written file joins the end.
- `sort()` then `[-1]` is modelled as the maximum of the suffixes; the order of the sorted list is not used elsewhere.
- `proxy_pass.split("/", 3)[:3]` is modelled as the first three '/'-fields.
- Allocation.RandomWithNDigits: requires n >= 1; the source is only called with 10.
- File contents are read by file name; `extract_proxy_pass` failing on a file that vanished is not modelled.
- FlaskBackend.CreateBackend: writes to `backend_path + filename` as if the configured path ended in '/'.
- FlaskBackend.CorrectedCreateSucceeds: promises that the new backend is listed only when its template name and version hold no '%'. Other names are written, but `fileRegex` then does not read them back.
- Lifecycle.NewFileIsListed: promises the scan-back only for owners in `[a-z0-9-@.]` and template, version and location without '%'. Other values are written, but the file-name pattern does not read them back.
- Lifecycle.CreatedBackendIsListed: promises the listing only for owners in `[a-z0-9-@.]` and template and version without '%', for the same reason.
- FlaskBackend.CreatedIsListed: promises the listing only for template and version without '%', for the same reason. The Flask owner validator already rules out '%'.
- Divergence.UpdateLeavesTwoFiles: covers only an update that flips the auth flag. With the flag unchanged the new file has the old file's name and overwrites it.
- User folders: the folder is chosen by backend id. The model holds that one folder, with its existence, read and write permissions, whether mkdir can create it, and which files may not be written. `shutil.rmtree` either removes the folder or, when it may not be written, changes nothing; partial removal is not modelled.
- Writing a user's file is assumed to succeed once the folder may be written.
- The Flask template service splices name and version unescaped into a regular expression. Modelling it would need a general regex engine.
- The OpenResty service wrapper and configuration loading.

## Findings

| source | as written | input that shows it | evidently intended | confidence | as-written member | corrected member |
|---|---|---|---|---|---|---|
| FlaskOpenRestyConfigurator/app/main/service/backend.py:85-90 | the duplicate check calls `match.group(1)` on every listed name, including names `fileRegex` rejects, where `match` is None | a backend directory that holds the `users` folder, which `config.py:42` places there, and any valid request | skip names that do not match, as `getBackends` does at lines 36-38 | high, not executed | FlaskBackend.UsersFolderBlocksCreate | FlaskBackend.CorrectedCreateSucceeds |
| FastapiOpenRestyConfigurator/app/main/service/user.py:60-68 | deleting the last user goes through `shutil.rmtree(..., ignore_errors=True)`, whose failure is swallowed, and answers 0 | a folder that may not be written, holding only the user's file | answer 3, as the same failure does when other users remain | medium, not executed | UserFolders.LastUserDeleteSwallowsFailure | UserFolders.DeleteCorrectedRemovesUser |
