# NATS Identity Service: a verified model

This project models the services of NIS - operators, accounts, scoped signing keys, users and
clusters, kept in a database and pushed to a NATS resolver - and proves what they promise, over every
run and with every call to the database or the encryptor allowed to fail.

The model is one state machine. `Entities` and `Database` are the rows, the unique indexes, the foreign
keys and the deletion rules of the schema; `Repositories.Store` is the database as an object whose methods
the services call, each of which may fail according to a plan; UUIDs and key pairs are drawn from one
fresh supply. The service modules are the service methods, statement by statement. `Transitions` says of
each service call what it may do to the store, in success and in every failure; each service method is
proved to do just that and to return the error it should, and `Machine` collects them. A JWT is a value: issuer, subject, and the claims.

What is proved on top:

* **Each call** - when it succeeds (`Acceptance`), what it stores and signs, field by field (`Outcomes` and, by
  table, `KeyOutcomes`, `UserOutcomes`, `AccountOutcomes`, `OperatorOutcomes`, `ClusterOutcomes`), the limits that JWTs
  grant over every run (`Limits`), the constraints of the schema (`Constraints`) and the listings (`Listings`).
* **Coherence** - the account JWT declares the stored scoped keys (`Coherence`, `Jwts`).
* **Trust** - which users a NATS server accepts (`Invariants`, `Runs`, `Trust`).
* **System accounts and deletions** (`SystemAccounts`, `Deletions`).
* **Export and import** (`ExportService`, `ImportService`, `ImportTheorems`, `ImportOutcomes`, `ImportCopies`,
  `Identities`), and
  runs that restore operators from exports (`Restoring`, `LongRuns`, `LongTrust`).
* **Cluster synchronisation** (`ClusterSync`, `SyncTheorems`), alone and together with the services, up to
  whom a server accepts that reads the resolver (`ResolverRuns`).
* **Credentials** - the `.creds` file, the storage references, key rotation, and the pipeline from a user
  to the NATS client (`Text`, `Creds`, `CredsText`, `CredsExact`, `CredsBytes`, `Base64`, `Encryption`, `KeyRotation`,
  `Sealing`, `ClusterService`, `ClusterCredentials`).
* **Permissions** (`PermissionService`).

## Where the code and its comments differ

The model follows the code and the schema.

* `internal/application/services/scoped_signing_key_service.go:274` says that deleting a key cascades to
  its users. The schema sets their reference to NULL (`migrations/00001_initial_schema.sql:69`): the users stay,
  with a signature that no JWT declares any more. `Trust.OrphanedIff` and `Trust.DeleteKeyKeepsTrustIff` say
  exactly which users, and when they recover.
* Clusters refer to their operator without a cascade (`migrations/00001_initial_schema.sql:88`), so
  `DeleteOperator` on an operator with a cluster deletes its accounts and then fails
  (`Deletions.ClusterBlocksDeletion`).
* The column default -1 replaces a JetStream maximum of 0 on insertion, not on update
  (`internal/infrastructure/persistence/sql/models.go:67-70`), after the JWT with the 0 was signed
  (`AccountOutcomes.NewAccountLimitsIff`, `Limits.LimitsFollowRows`).
* A push takes every reply that does not start with a dash for success, although the resolver also answers
  with JSON errors, which the deletion recognises: a sync can then report an account as pushed that the
  resolver does not have (`SyncTheorems.ReportsTruthfulIff`).
* A cluster is created with at least one server, but an update accepts an empty list, and the cluster cannot
  be opened until it has one again (`ClusterCredentials.ServersCanGo`, `ClusterCredentials.CredentialPipeline`).
* Synchronisation compares the resolver with one page of 1000 accounts, so pruning is safe only under the
  condition of `SyncTheorems.PruneSafeIff`.
* A key id with a colon makes every reference under it unreadable (`Encryption.DecryptsIff`).

## What is taken as given

The database runs one service call at a time, and a statement that fails changes nothing. Decrypting a
seed gives the key pair it was made of. The AEAD obeys one law, opening undoes sealing (section 2.8 of
RFC 8439). The resolver is a map from account keys to JWTs; what a request did to it and what was answered
are inputs, independent of each other unless a statement says that the resolver is honest. Account JWTs are stored under the
account's public key, which is the subject of the JWT by `Runs.RunKeeps`. Fresh ids and key pairs differ
from all that the store holds and from all that an imported file mentions, the issuers of its user JWTs included.

## Model

| member | source | states |
|---|---|---|
| Coherence.CoherentOrStale | internal/application/services/scoped_signing_key_service.go:17-75 | Over every run of the machine, with any repository or encryptor call failing: each account JWT declares exactly the newest 1000 stored keys of its account (public key, name, four permission lists, response limits), unless a call on those keys returned an error after changing the store and no call has signed the JWT again since |
| Coherence.DeclaresAllOrStale | internal/application/services/scoped_signing_key_service.go:52-75 | In any such run, an account with at most 1000 keys that was not left stale declares all of its stored keys, and nothing else |
| Coherence.DeclaresFields | internal/application/services/jwt_service.go:96-115 | In a coherent account the JWT gives each key it declares, and each of at most 1000 keys, the role, description, four permission lists and response limits of its row, the limits exactly if one of them is positive |
| Coherence.OneFaultDisturbs | internal/application/services/scoped_signing_key_service.go:115-158 | A call that meets at most one failing repository call can leave JWT and keys at odds only if it is an update or a deletion of a key; the creations roll back |
| Coherence.FailedUpdateDisturbsIff | internal/application/services/scoped_signing_key_service.go:199-271 | And when a failed update does: one that changed the store leaves a coherent account coherent if and only if the key was not declared, or the new row as stored declares the same as the old |
| Coherence.FailedDeletionDisturbsIff | internal/application/services/scoped_signing_key_service.go:275-288 | And when a failed deletion does: one that removed the row leaves a coherent account coherent if and only if the key was not declared |
| Jwts.DeclaresAllIff | internal/application/services/scoped_signing_key_service.go:57-69 | A regenerated JWT declares all keys of its account if and only if the account has at most 1000 |
| Jwts.PageDeclaresNewest | internal/application/services/jwt_service.go:96-115 | Declaring one page of the newest keys gives a signer map of exactly the newest min(1000, n) keys, none lost to an equal public key |
| Coherence.StepServes | internal/application/services/scoped_signing_key_service.go:52-158 | Every service call either signs an account afresh, which makes it coherent from any state, or leaves its JWT and keys alone, or failed after it had written its keys |
| Trust.ChainOfTrust | internal/application/services/user_service.go:72-122 | Over every run, failed calls included: in an account that is not left stale and has at most 1000 keys, a user is accepted by the chain operator - account - declared signer if and only if its scoped key was not deleted under it since it was last signed |
| Trust.OrphanedIff | migrations/00001_initial_schema.sql:69-69 | A stored user carries the signature of a key it no longer names if and only if some call deleted that key and no later call signed the user again; the schema sets the reference to NULL where the service comment speaks of a cascade |
| Trust.DeleteKeyKeepsTrustIff | internal/application/services/scoped_signing_key_service.go:273-288 | Deleting a key with success keeps every user of the account trusted if and only if no user is signed with that key |
| Trust.TrustedIff | internal/application/services/jwt_service.go:127-176 | In a coherent account, trust fails exactly for orphaned users and for users whose key is not among the declared ones |
| Runs.RunKeeps | internal/application/services/jwt_service.go:26-176 | Over every run: each operator JWT is self-signed and matches its row, each account JWT is issued by its operator and names the account, each user is signed by its own account or by a key of that account, scoped users carry the issuer account, or the key is gone for good |
| SystemAccounts.OperatorJwtNamesRow | internal/application/services/operator_service.go:245-281 | Over every run, failed calls included, an operator's JWT names the same system account and the same name as its row |
| SystemAccounts.DesignatedExists | internal/application/services/operator_service.go:82-166 | Over every run in which a designation is only ever of an account of the operator itself, the designated system account exists, unless a deletion of that operator returned an error after it had taken the account away and nothing was designated since |
| SystemAccounts.DesignationRepairs | internal/application/services/operator_service.go:245-281 | A successful designation of a stored account of the operator (or of none) repairs that, whatever was before |
| Deletions.OperatorDeletedExactly | internal/application/services/operator_service.go:285-321 | A deletion that returns success removes exactly the accounts, keys and users under the operator, and every other row is unchanged; no bound on their number is needed |
| Deletions.FailedDeletionLeavesNoOrphan | internal/application/services/operator_service.go:293-318 | A deletion that fails at any step leaves no key and no user without its account, and no row of another operator changed |
| Deletions.ClusterBlocksDeletion | migrations/00001_initial_schema.sql:88-88 | An operator with a cluster is never deleted, yet without any fault the attempt still removes all its accounts, keys and users if there are at most 10000 accounts |
| ImportCopies.RoundTrip | internal/application/services/export_service.go:315-485 | Export, then import into a store holding none of its names and public keys, succeeds without a fault and gives an isomorphic copy: one injective renaming maps every row to its copy with all else preserved, but for maxima of 0 and the TLS flag of clusters |
| ImportCopies.RunRoundTrip | internal/application/services/export_service.go:154-297 | The same for whatever any run of the services has stored, with nothing asked of the source |
| ImportCopies.PartialResolves | internal/application/services/export_service.go:356-454 | After any prefix of an import, stopped by a failing call or by a row that was refused, every stored key and user refers to the copies of what it referred to, and those are stored: no lookup misses and no user loses its scoped key |
| ImportTheorems.LookupIff | internal/application/services/export_service.go:381-385 | For every file: a lookup finds the new id of the row it means if and only if no row imported in between, of whatever kind, has the same old id |
| ImportCopies.SharedIdRefused | internal/application/services/export_service.go:378-385 | One such collision: a key with the id of its own account is renamed into its own account, so the import cannot succeed |
| ImportCopies.CopyCoherentIff | internal/application/services/export_service.go:344-410 | An account is coherent if and only if its copy is |
| ImportCopies.CopyTrustedIff | internal/application/services/export_service.go:413-454 | A user is trusted if and only if its copy is |
| Restoring.ImportKeepsSigned | internal/application/services/export_service.go:315-485 | Importing an export with its secrets into a store that has none of its key pairs keeps every JWT signed by the key the chain of trust wants, wherever the import stops |
| LongRuns.LongRunKeeps | internal/application/services/export_service.go:315-485 | So the invariant holds over runs in which operators are also imported from exports, each import as far as it came |
| LongRuns.Restore | internal/application/services/export_service.go:315-485 | Every import of such a file, from the method that runs it and whether or not it succeeds, is a step of such a run |
| LongRuns.LongRunOperatorNamesRow | internal/application/services/operator_service.go:245-281 | Over such runs too an operator's JWT names the system account and the name of its row |
| LongRuns.CoherentOrSpoilt | internal/application/services/scoped_signing_key_service.go:17-75 | Over such runs too each account JWT declares exactly the newest 1000 keys, unless a call on its keys failed, or the account was imported from one whose JWT did not or by an import that stopped before all keys of the account were stored, and nothing has signed it again since |
| LongRuns.RestoreServes | internal/application/services/export_service.go:344-414 | An import, wherever it stops, leaves the JWT and keys of the accounts that were there alone and brings coherent accounts from coherent ones whose keys it has stored |
| LongTrust.OrphanedLongIff | migrations/00001_initial_schema.sql:69-69 | Over such runs a user carries the signature of a key it no longer names if and only if a call deleted that key, or the user was imported as one that had lost it, and it was neither signed nor imported as another since |
| LongTrust.LongChainOfTrust | internal/application/services/user_service.go:72-122 | Over such runs, in an account with at most 1000 keys to which no exception of `LongRuns.CoherentOrSpoilt` applies, a user is accepted by the chain of trust if and only if it is not such an orphan |
| ImportTheorems.ReadyImportable | internal/application/services/export_service.go:315-485 | For a file whose references resolve and a store with room for it, every single insertion of the import fits when its turn comes |
| Identities.RunExportable | internal/infrastructure/persistence/sql/models.go:139-190 | Over every run no id names rows of two kinds and every response TTL is stored in whole seconds, which the import relies on |
| SyncTheorems.SyncConverges | internal/application/services/cluster_service.go:357-459 | A pruning sync that reports no error leaves exactly the database's JWTs plus the system entry if it was there, from any resolver state - for at most 1000 accounts, all with JWTs, and a resolver that lists what it has, answers honestly and answers no push with a JSON error |
| SyncTheorems.SecondSyncChangesNothing | internal/application/services/cluster_service.go:390-459 | After that a further sync, whichever of its requests take effect and whatever is answered, removes nothing and changes nothing |
| SyncTheorems.PruneSafeIff | internal/application/services/cluster_service.go:357-410 | Pruning never removes an account that is in the database, whatever the resolver lists, if and only if each account beyond the 1000-account page is the system account |
| SyncTheorems.PruneBound | internal/application/services/cluster_service.go:357-361 | So pruning is safe up to 1000 accounts and unsafe from 1002 on |
| ResolverRuns.ResolverSafe | internal/application/services/cluster_service.go:390-502 | Over every history of service calls, syncs and removals by hand, whatever fails and is answered: while the cluster's system account is this key, the key never leaves the resolver, and every other entry was there at first or is a JWT that the database held for that key when some sync with the account on its page ran |
| ResolverRuns.SystemKept | internal/application/services/cluster_service.go:205-208 | The system account of a cluster stays the same until an update gives it another |
| ResolverRuns.HistoryKeeps | internal/application/services/cluster_service.go:339-502 | The database side of every history keeps the invariant of the runs |
| ResolverRuns.AcceptedIffTrusted | internal/application/services/jwt_service.go:65-176 | Once a sync has converged, a server that knows the operator's key and reads account JWTs from the resolver accepts exactly the users the database says are trusted |
| ResolverRuns.AcceptedIff | internal/application/services/jwt_service.go:127-176 | Over every run, once a sync has converged: the server accepts a user exactly if its scoped key was not deleted under it since it was last signed, in an account that is not left stale and has at most 1000 keys |
| ResolverRuns.HistoryIsRun | internal/application/services/cluster_service.go:339-502 | The service calls of every history are a run of the machine, with the databases the syncs meet as its states |
| ResolverRuns.AcceptedAfterSync | internal/application/services/jwt_service.go:127-176 | Over every history: after a pruning sync without errors, for an operator with at most 1000 accounts and a reliable resolver, a server that reads the resolver accepts a user exactly if its scoped key was not deleted under it since it was last signed, in an account not left stale with at most 1000 keys |
| ResolverRuns.Synchronise | internal/application/services/cluster_service.go:339-462 | Every sync, from the method that runs it, is a step of such a history; without a fault, on a cluster that can be opened, for an operator with at most 1000 accounts and a healthy resolver, a pruning sync leaves exactly what the database has |
| ResolverRuns.RemoveByHand | internal/application/services/cluster_service.go:476-502 | So is every removal by hand |
| SyncTheorems.ReportsTruthfulIff | internal/infrastructure/nats/client.go:230-248 | With an honest resolver, every account the sync reports as pushed has its database JWT on the resolver afterwards if and only if no push of a JWT that was not there already was answered by a JSON error, which the push does not recognise though the deletion does |
| ClusterSync.Accounting | internal/application/services/cluster_service.go:366-389 | Reported names, push errors and skipped accounts without a JWT add up to the accounts listed |
| ClusterSync.StaleIff | internal/application/services/cluster_service.go:391-405 | A key is stale exactly if it is listed, not in the page and not the system key |
| ClusterSync.SyncedIsPushAndPrune | internal/application/services/cluster_service.go:366-459 | Pushing account by account and then deleting gives the stated post-state key by key |
| ClusterCredentials.CredentialPipeline | internal/application/services/cluster_service.go:230-264 | Over every run: after a successful credential update from a user, or a creation of the cluster that stored its credentials, and no later update, opening the cluster gives the NATS client exactly that user's JWT and decrypted seed, under any key set that still has the encrypting key, if the cluster still has a server, and no client if it has none |
| ClusterCredentials.ServersCanGo | internal/application/services/cluster_service.go:200-203 | An update may take all servers of a cluster away, so the exception does occur |
| ClusterCredentials.OpenGivesUserIff | internal/application/services/cluster_service.go:318-335 | The same for one cluster row: decrypting and parsing undo printing and encrypting |
| ClusterCredentials.CredentialsKept | internal/application/services/cluster_service.go:245-264 | Nothing but a credential update of that cluster changes what was stored |
| KeyRotation.RotationKeepsPlaintext | internal/infrastructure/encryption/chacha_encryptor.go:175-189 | Every reference produced by encrypting and any chain of rotations decrypts to its plaintext under all later encryptors, and names the key current when it was written |
| Encryption.DecryptsIff | internal/infrastructure/encryption/chacha_encryptor.go:68-167 | An encrypted reference decrypts to its plaintext if and only if the key id has no colon |
| Base64.RoundTrip | internal/infrastructure/encryption/chacha_encryptor.go:92-92 | Base64 of section 4 of RFC 4648: decoding undoes encoding for every byte string |
| Base64.Rejects | internal/infrastructure/encryption/chacha_encryptor.go:137-140 | A text with any character outside the alphabet, padding and line breaks does not decode |
| Creds.CredsRoundTrip | internal/infrastructure/nats/client.go:100-160 | Parsing the printed file gives back the trimmed JWT and seed when the JWT holds none of the three markers looked for behind it and the seed not its end marker |
| CredsExact.CleanJwtIff | internal/domain/entities/user.go:26-41 | A JWT survives next to every clean seed if and only if it holds none of those markers |
| CredsExact.CleanSeedIff | internal/domain/entities/user.go:26-41 | A seed survives next to every clean JWT if and only if it does not hold its end marker |
| CredsExact.PlainRoundTrip | internal/infrastructure/nats/client.go:100-160 | A JWT and a seed without whitespace, as the encodings produce them, always come back exactly |
| Text.SplitJoins | internal/infrastructure/nats/client.go:402-415 | The pieces hold no newline, and each ended by a newline they give the text back, plus a final newline if it lacked one |
| Text.KeyListRoundTrip | internal/infrastructure/nats/client.go:384-393 | Any list of non-empty keys without newlines and outer whitespace, printed one per line, is read back exactly |
| Text.TrimmedIs | internal/infrastructure/nats/client.go:174-189 | Trimming strips any blank padding of a text that has none of its own |
| Text.IndexFromLeast | internal/infrastructure/nats/client.go:164-171 | The search gives the least index of an occurrence, or -1 if there is none |
| PermissionService.StoredRowsVisible | internal/application/services/permission_service.go:268-341 | On stored rows the filters look up without error and agree with the matching read permission; listing operators fails only for an account admin whose account is gone |
| PermissionService.AccountOwnerOwnsOperator | internal/application/services/permission_service.go:75-119 | Whoever owns an account owns its operator |
| PermissionService.OneOperator | internal/application/services/permission_service.go:75-119 | Everything that a caller other than an admin may read lies under one operator |
| PermissionService.MarkedAt | internal/application/services/permission_service.go:168-180 | What an order-preserved subsequence is: a marked row stands behind exactly the marked rows before it |
| Acceptance.SucceedsIff | internal/application/services/account_service.go:56-345 | For every service call, in every reachable store: without a fault it succeeds exactly if its request meets a stated condition on the stored rows (names free, rows there, key of that account, not a system account or user, ...), no fault makes an unacceptable call succeed, and a refused call changes nothing, a deletion of an operator with a cluster apart |
| KeyOutcomes.UpdatedKey | internal/application/services/scoped_signing_key_service.go:199-271 | Each of the eight fields of the stored key is the request's value if given and else the old one, the TTL cut to whole seconds; key pair, account and creation time stay, and no other key, user, operator or cluster changes - also when the call failed after storing the key |
| KeyOutcomes.UpdatedKeySigner | internal/application/services/scoped_signing_key_service.go:199-271 | After success the account is signed anew and its JWT says of the key, field by field, what the new row says |
| KeyOutcomes.CreatedKey | internal/application/services/scoped_signing_key_service.go:91-158 | One key is added, each field as the request asks, the TTL in whole seconds, with a key pair that no stored row has |
| KeyOutcomes.CreatedKeySigner | internal/application/services/scoped_signing_key_service.go:91-158 | After success the account is signed anew and its JWT says of the new key what its row says |
| KeyOutcomes.DeletedKey | internal/application/services/scoped_signing_key_service.go:275-288 | That key is removed, exactly the users that name it lose the reference, and no other row but the account's changes |
| KeyOutcomes.DeletedKeySigner | internal/application/services/scoped_signing_key_service.go:275-288 | After success the account is signed anew and no longer declares the key |
| UserOutcomes.CreatedUser | internal/application/services/user_service.go:51-122 | One user is added with the account, name, description and scoped key that the request gives; its JWT is scoped if and only if a key is named, and signed by that key, else by the account |
| UserOutcomes.UpdatedUser | internal/application/services/user_service.go:161-221 | The given fields are stored, the others stay, and a changed user is signed again with the key that its row names |
| UserOutcomes.DeletedUser | internal/application/services/user_service.go:236-256 | Exactly that user is removed |
| AccountOutcomes.CreatedAccount | internal/application/services/account_service.go:56-142 | One account as the request asks - maxima of 0 stored as -1 -, with exactly one key, "default", that restricts nothing; its JWT is issued by the operator, grants the maxima as requested one by one, and declares just that key |
| AccountOutcomes.LeftBehind | internal/application/services/account_service.go:118-140 | A failed creation that is not undone needs two faults, and leaves just that account, without a key |
| AccountOutcomes.NewAccountLimitsIff | internal/infrastructure/persistence/sql/models.go:66-70 | The four maxima in a new account's JWT are those of its stored row if and only if JetStream is off or no requested maximum is 0, because the column default replaces each 0 by -1 after the JWT was signed |
| AccountOutcomes.UpdatedAccount | internal/application/services/account_service.go:210-270 | The given fields are stored, the others stay; a changed account is signed anew, its JWT with name, limits and keys of the row |
| AccountOutcomes.UpdatedLimits | internal/application/services/account_service.go:282-323 | The new maxima are stored as given and granted by the new JWT one by one, or none if JetStream is off |
| AccountOutcomes.DeletedAccount | internal/application/services/account_service.go:326-345 | Exactly the account with its keys and users is removed, and no user elsewhere loses its key |
| Limits.LimitsFollowRows | internal/application/services/jwt_service.go:80-93 | Over every run, whatever fails: an account's JWT grants limits exactly if its row enables JetStream, and each of the four is the row's, or a requested 0 for which the row has the default -1 |
| OperatorOutcomes.CreatedOperator | internal/application/services/operator_service.go:55-167 | A self-signed operator that designates its one account "$SYS", which has one unrestricted key and one user "system" that it signs itself; no other row changes |
| OperatorOutcomes.UpdatedOperator | internal/application/services/operator_service.go:196-242 | The given fields are stored, the others stay, and the JWT says so |
| OperatorOutcomes.DesignatedOperator | internal/application/services/operator_service.go:245-282 | The given key is stored as the system account and the JWT names it, whether it was signed again or kept |
| ClusterOutcomes.CreatedCluster | internal/application/services/cluster_service.go:62-141 | One cluster as the request asks, under the system account of its operator, with the sealed credentials of a user "system" of that account, or without if there is none whose credentials can be made |
| ClusterOutcomes.UpdatedCluster | internal/application/services/cluster_service.go:173-227 | The given fields are stored, the others stay, the credentials among them |
| ClusterOutcomes.UpdatedCredentials | internal/application/services/cluster_service.go:230-264 | Only the credentials change, to those sealed for that user |
| Constraints.SchemaIff | migrations/00001_initial_schema.sql:1-110 | The checks made row by row on each statement are together the unique indexes and foreign keys of the schema |
| Constraints.RunConstrained | migrations/00001_initial_schema.sql:1-110 | Every database of every run meets them, whatever fails |
| Listings.NewestKeys | internal/infrastructure/persistence/sql/scoped_signing_key_repo.go:109-131 | A page holds stored keys of the account, newest first, as many as the limit allows, and no key left out is newer than one on it |
| Listings.NewestAccounts | internal/infrastructure/persistence/sql/account_repo.go:109-131 | The same for the accounts of an operator |
| ExportService.NoSecretsShown | internal/application/services/export_service.go:181-297 | Without secrets no seed and no credentials are in the file |
| ExportService.AllShown | internal/application/services/export_service.go:181-297 | With secrets every row of the file is the stored one, but for the TLS flag of clusters |
| ExportService.ExportedAccounts | internal/application/services/export_service.go:154-297 | The accounts of the file are those stored under the operator, all of them, equal but for the seed |
| ExportService.ExportedKeys | internal/application/services/export_service.go:154-297 | The same for the keys of its accounts |
| ExportService.ExportedUsers | internal/application/services/export_service.go:154-297 | The same for the users of its accounts |
| ImportOutcomes.LookupDecides | internal/application/services/export_service.go:356-430 | For every file: a lookup finds the new id of the last row with that old id, of whatever kind, or nothing |
| ImportOutcomes.ImportedAccount | internal/application/services/export_service.go:356-375 | For every file and as far as the import came: the account is stored as in the file, under the imported operator, maxima of 0 as -1 |
| ImportOutcomes.ImportedKey | internal/application/services/export_service.go:378-414 | The key is stored as in the file, in the account that its reference is looked up to; an unknown reference stays |
| ImportOutcomes.ImportedUser | internal/application/services/export_service.go:416-454 | The user is stored as in the file; with new ids its references are looked up, and a scoped key that is not known is dropped |
| ImportOutcomes.ImportOnlyAdds | internal/application/services/export_service.go:315-485 | However far an import comes, no row that was there changes |
| SyncTheorems.SyncReports | internal/application/services/cluster_service.go:366-389 | In the report of every sync: an account of the page with a JWT is named as pushed if its push was answered by a text that does not start with a dash, and else is in the errors |
| SyncTheorems.SyncRemoves | internal/application/services/cluster_service.go:407-459 | Keys are reported as removed only if listed, not of a page account and not the system key, and only after an answer that is neither a dash text nor a JSON error |
| Encryption.DecryptIff | internal/infrastructure/encryption/chacha_encryptor.go:99-167 | A text decrypts exactly if it is a reference under a known key whose base64 is a nonce of 12 bytes and what the cipher opens |
| Encryption.UnknownKeyIff | internal/infrastructure/encryption/chacha_encryptor.go:99-135 | It is refused as not found exactly if it is a reference under an unknown key |
| Base64.DecodeIff | internal/infrastructure/encryption/chacha_encryptor.go:137-140 | A text without line breaks decodes to the bytes exactly if it is their encoding, bits that padding leaves unused apart |
| Base64.BreaksSkipped | internal/infrastructure/encryption/chacha_encryptor.go:137-140 | A line break anywhere makes no difference |
| Base64.Group | internal/infrastructure/encryption/chacha_encryptor.go:92-92 | Four characters carry the 24 bits of three bytes, the first byte highest |
| CredsText.FileLines | internal/domain/entities/user.go:26-41 | The printed file, line by line |
| CredsText.ParseIff | internal/infrastructure/nats/client.go:100-161 | Of any text: credentials are read exactly if both pairs of markers enclose something, and they are that without whitespace; and exactly when the slice panics |
| Text.NonBlankIff | internal/infrastructure/nats/client.go:384-393 | The list holds exactly the trimmed lines that are not blank |
| ClusterCredentials.OpensIff | internal/application/services/cluster_service.go:318-335 | A cluster can be opened exactly if it has credentials and servers, and they decrypt to nothing or to a file that parses; never as a user without JWT or seed |
| PermissionService.WhoReads | internal/application/services/permission_service.go:75-119 | Exactly who may read an operator, an account, a user: role by role |
| PermissionService.FilteredExactly | internal/application/services/permission_service.go:268-341 | The filtered lists of stored rows hold exactly the rows that the caller may read |
| Machine.Execute | internal/application/services/account_service.go:56-345 | Every service call, run on the store, is a step of the machine |
| Machine.ExecuteAll | internal/application/services/scoped_signing_key_service.go:17-22 | Whatever is asked of a new store, and whatever fails, the trace is a run |
| ScopedSigningKeyService.RegenerateAccountJwt | internal/application/services/scoped_signing_key_service.go:52-75 | Reads operator, account and the newest 1000 keys, signs, saves: on success the account is signed afresh over the stored keys, on failure nothing changes, and without a fault it succeeds exactly if the operator can sign |
| ScopedSigningKeyService.CreateScopedSigningKey | internal/application/services/scoped_signing_key_service.go:91-158 | Every outcome: success stores the key and re-signs; failure leaves the store as it was, unless signing and rollback both failed |
| ScopedSigningKeyService.UpdateScopedSigningKey | internal/application/services/scoped_signing_key_service.go:199-271 | Every outcome: success stores the patched key and re-signs if anything was given; a failed re-signing leaves the changed row under the old JWT |
| ScopedSigningKeyService.DeleteScopedSigningKey | internal/application/services/scoped_signing_key_service.go:275-288 | Every outcome: success removes the key, unlinks its users and re-signs; a failed re-signing leaves the key removed |
| AccountService.CreateAccount | internal/application/services/account_service.go:56-142 | Every outcome: account and default key are stored and the JWT declares that key; one fault leaves nothing, a failed rollback the account without its key |
| AccountService.UpdateAccount | internal/application/services/account_service.go:210-270 | Re-signs over the stored keys if a field changed; any failure changes nothing |
| AccountService.UpdateJetStreamLimits | internal/application/services/account_service.go:282-323 | Stores the limits as given and re-signs; any failure changes nothing |
| AccountService.DeleteAccount | internal/application/services/account_service.go:326-345 | Refuses the system account; otherwise removes the account with its keys and users |
| AccountService.RollbackAccount | internal/application/services/account_service.go:118-140 | Deleting the new account again restores the store exactly |
| ScopedSigningKeyService.RollbackKey | internal/application/services/scoped_signing_key_service.go:140-152 | Deleting the new key again restores the store exactly |
| UserService.CreateUser | internal/application/services/user_service.go:51-122 | Signs with the scoped key if one of that same account is named, else with the account key; any failure changes nothing |
| UserService.UpdateUser | internal/application/services/user_service.go:161-221 | Signs again by the same rule if a field changed; any failure changes nothing |
| UserService.DeleteUser | internal/application/services/user_service.go:236-256 | Refuses the system user of a $SYS account; otherwise removes the user |
| OperatorService.CreateOperator | internal/application/services/operator_service.go:55-167 | Every outcome: operator, $SYS account with default key, system user and designation, or one of the earlier stages if a call fails |
| OperatorService.UpdateOperator | internal/application/services/operator_service.go:196-242 | Signs again if a field changed; any failure changes nothing |
| OperatorService.SetSystemAccount | internal/application/services/operator_service.go:245-282 | Accepts account keys or the empty key, keeps the JWT if it already names the account, else signs again |
| OperatorService.DeleteOperator | internal/application/services/operator_service.go:285-321 | Deletes users, accounts and the operator step by step; success is the removal of the whole subtree, failure a partial one |
| Jwts.GenerateOperatorJwt | internal/application/services/jwt_service.go:26-55 | Self-signed claims with the row's name and system account |
| Jwts.GenerateAccountJwt | internal/application/services/jwt_service.go:65-124 | Claims issued by the operator with the row's limits and one scope per given key |
| Jwts.GenerateUserJwt | internal/application/services/jwt_service.go:127-176 | Issued by the scoped key with issuer account and empty permissions, or by the account |
| ClusterService.CreateCluster | internal/application/services/cluster_service.go:62-141 | Every outcome: the cluster with the operator's designated account, and the credentials of its "system" user where they can be made; failing to make them is no error |
| ClusterService.UpdateCluster | internal/application/services/cluster_service.go:173-227 | Stores the given fields if the new name is free; any failure changes nothing |
| ClusterService.UpdateClusterCredentials | internal/application/services/cluster_service.go:230-264 | Stores the credentials file made of the user's row, encrypted; without a fault it succeeds exactly if cluster and user are stored and the seed can be decrypted and the file encrypted |
| ClusterService.Seal | internal/application/services/jwt_service.go:179-190 | Decrypts the seed, prints the file and encrypts it |
| ClusterService.DeleteCluster | internal/application/services/cluster_service.go:288-297 | Removes the cluster if it is there |
| ClusterSync.OpenManagedCluster | internal/application/services/cluster_service.go:318-335 | Decrypts the stored credentials and builds the client from them; without a fault it succeeds exactly if there are credentials, they decrypt and parse, and the cluster has a server |
| ClusterSync.NewClientFromCreds | internal/infrastructure/nats/client.go:62-97 | Refuses an empty server list before anything else, connects without credentials for an empty file, and else authenticates with what the file parses to |
| ClusterSync.SyncCluster | internal/application/services/cluster_service.go:339-462 | For every pattern of push, list and delete failures: the exact resolver afterwards, and a result whose counters, names, removed list and errors are what was done |
| ClusterSync.PushPage | internal/application/services/cluster_service.go:366-389 | The push loop: names, counter and errors are those of the pushes, and the resolver holds what was applied |
| ClusterSync.CollectStale | internal/application/services/cluster_service.go:391-405 | The stale keys, in the order listed |
| ClusterSync.DeleteStale | internal/application/services/cluster_service.go:407-459 | One delete claim for all stale keys; each failure becomes one error entry and reports nothing removed |
| ClusterSync.DeleteResolverAccount | internal/application/services/cluster_service.go:476-502 | Refuses the system key; otherwise removes at most that one key, and exactly it if the reply is no error; the exact condition of success without a fault |
| ClusterSync.Resolver.PushAccountJwt | internal/infrastructure/nats/client.go:212-246 | Changes at most the account's own entry; fails only on a transport error or a reply that starts with a dash |
| ClusterSync.Resolver.DeleteAccountJwt | internal/infrastructure/nats/client.go:251-293 | Removes at most the named keys; a JSON error is a failure here |
| ExportService.ExportOperator | internal/application/services/export_service.go:154-297 | The file holds the operator and exactly the rows below it, each once, with seeds and credentials only on request; without a fault it succeeds exactly for a stored operator |
| ImportService.ImportOperator | internal/application/services/export_service.go:315-485 | For every file, from whatever installation, and both id modes: success is the exact database after all insertions, failure that after a proper prefix of rows that all fitted, and without a fault it succeeds exactly if every insertion fits |
| ImportService.ImportAccounts | internal/application/services/export_service.go:344-375 | The account loop, with new ids entered in the shared renaming |
| ImportService.ImportKeys | internal/application/services/export_service.go:378-414 | The key loop: a key is renamed before its account is looked up |
| ImportService.ImportUsers | internal/application/services/export_service.go:416-454 | The user loop: an unknown scoped key is dropped when ids are regenerated and kept otherwise |
| ImportService.ImportClusters | internal/application/services/export_service.go:456-482 | The cluster loop, outside the renaming |
| Creds.ParseCredsContent | internal/infrastructure/nats/client.go:100-161 | For every content, malformed ones included: the two trimmed fields, a refusal, or a slice panic |
| Text.Find | internal/infrastructure/nats/client.go:164-171 | The loop computes the least index |
| Text.Trim | internal/infrastructure/nats/client.go:174-189 | The two loops compute the trimmed text |
| Text.SplitLines | internal/infrastructure/nats/client.go:402-415 | The loop computes the lines |
| Text.ParseKeyList | internal/infrastructure/nats/client.go:384-393 | The fallback list: the non-blank lines, trimmed |
| Encryption.NewEncryptor | internal/infrastructure/encryption/chacha_encryptor.go:24-57 | Accepts exactly key sets whose keys are all base64 of 32 bytes and that contain the current key |
| PermissionService.FilterOperators | internal/application/services/permission_service.go:168-180 | The order-preserved subsequence the caller may read; fails exactly if some lookup does |
| PermissionService.FilterAccounts | internal/application/services/permission_service.go:242-254 | The order-preserved subsequence the caller may read; fails exactly if some lookup does |
| PermissionService.FilterUsers | internal/application/services/permission_service.go:329-342 | The order-preserved subsequence whose account the caller may read; a failing lookup skips the user |
| PermissionService.CanReadOperator | internal/application/services/permission_service.go:136-145 | Granted exactly to owners |
| PermissionService.CanReadAccount | internal/application/services/permission_service.go:204-213 | Granted exactly to owners |
| PermissionService.CanReadUser | internal/application/services/permission_service.go:273-286 | Granted exactly to owners of the user's account |
| Repositories.Store.ListKeysByAccount | internal/infrastructure/persistence/sql/scoped_signing_key_repo.go:109-131 | The newest keys of the account, newest first, at most the limit, all of them for limit 0 |
| Repositories.Store.ListAccountsByOperator | internal/infrastructure/persistence/sql/account_repo.go:109-131 | The same for the accounts of an operator |
| Repositories.Store.CreateAccount | internal/infrastructure/persistence/sql/account_repo.go:25-36 | Stores the row with defaults for zero maxima, or refuses it by the constraints |
| Repositories.Store.UpdateAccount | internal/infrastructure/persistence/sql/account_repo.go:134-150 | Replaces the row but for its creation time, NotFound if there is none |
| Repositories.Store.DeleteAccount | internal/infrastructure/persistence/sql/account_repo.go:153-165 | Removes the row and cascades to its keys and users |
| Repositories.Store.CreateKey | internal/infrastructure/persistence/sql/scoped_signing_key_repo.go:25-36 | Stores the row with its TTL in whole seconds, or refuses it by the constraints |
| Repositories.Store.UpdateKey | internal/infrastructure/persistence/sql/scoped_signing_key_repo.go:134-150 | Replaces the row but for its creation time, NotFound if there is none |
| Repositories.Store.DeleteKey | internal/infrastructure/persistence/sql/scoped_signing_key_repo.go:153-165 | Removes the row and sets its users' reference to NULL |
| Repositories.Store.DeleteOperator | internal/infrastructure/persistence/sql/operator_repo.go:128-140 | Cascades to the whole subtree, refused while a cluster refers to the operator |
| Repositories.NewestFirst | internal/infrastructure/persistence/sql/scoped_signing_key_repo.go:109-131 | Ordering by creation time, descending, with the limit |

## Left out

- UpdatedAt columns, list offsets and error texts: they carry no property stated here.
- JWT text, signatures, nkeys and seeds as text: a JWT is its claims and a seed is known by its key pair. `Sealing.Vault` gives the texts of the two columns of a user as functions of them.
- Interleaving of concurrent calls: regeneration is an unprotected read and write, so each service call runs alone.
- A statement that fails after it took effect, as after a lost connection.
- The clock: a call uses one time for all rows it creates, where the code reads the clock for each.
- Parsing the JSON form of the resolver's account list, request time-outs and reconnects: the listing is an input, or fails.
- Rounding of response TTLs beyond 97 days, where the conversion to seconds goes through floating point.
- Creds.ParseCredsContent: a slice whose end precedes its start, which panics in Go, is a result of its own.
- ImportCopies.RoundTrip: cluster health and the update times are not part of the file; a cluster is imported with certificate checks on, and maxima of 0 come back as -1.
- Rows for the other repository methods: those of operators, users and clusters follow the pattern of the ones listed above.
- Permissions to create, update, delete, sync and manage: each is one of the two ownership checks behind a role test.
- Imports in long runs, complete or stopped on the way, are of exports with secrets, of any store that a run leaves, into a store that has none of the operator's key pairs; what an import without secrets or of a file from elsewhere stores is `ImportService.ImportOperator`, but such rows need not satisfy the invariant.
- NSC import, archives and the repair command: they add rows without signing the account JWT again, so they are not steps of the coherent machine.
- gRPC, the command line, the web UI, metrics, logging, configuration, Casbin, health checks, configuration templates and API users.
