# Session lifecycle of the fiber session middleware

A Dafny model of the `Session` object of the fiber web framework's session
middleware (`middleware/session/session.go`): the pool hooks that hand out and
clear sessions, the accessors, the record operations, and the three lifecycle
transitions `Destroy`, `Regenerate` and `Save`, with the cookie directives they
write.

A session couples a request context, the Store settings it borrows, a
key/value record (`db`) and an id with a freshness flag. The model keeps these
as an immutable `Sessions.Session` value. Everything a transition can change
lives in a `Sessions.World`:

- the storage backend, as a map from id to stored bytes and time to live;
- the log of cookie directives written to responses;
- the free list of the session pool.

Each transition is a pure function returning the new session, the new world
and the error it returns. The parts the session does not control are
parameters:

- whether a storage call fails (`fault`);
- the key generator's output (`generated`);
- the record encoder (`marshal`, a function that may fail);
- which pooled session the pool hands out (`pick`).

Files:

- `wrappers.dfy` holds `Option`, `Result`, `Outcome` and the error kinds.
- `record.dfy` holds the record.
- `storage.dfy` holds the backend.
- `store.dfy` holds the Store settings.
- `cookies.dfy` holds the cookie directives and the SameSite choice.
- `sessions.dfy` holds the session and its operations.
- `lifecycle.dfy` holds lemmas relating several calls.

Facts about the code the model keeps:

- Nothing in `session.go` sets `fresh` to false. `Save` and `Destroy` leave
  it alone, and the pool hooks set it to true.
- A successful `Save` releases the session with an empty record. A second
  `Save` on the same handle, with no `acquireSession` in between, therefore
  takes the empty-record branch at line 100 and returns `nil`
  (`Lifecycle.SaveTwiceIsNoop`).
- `session.go` never checks that the id is non-empty; the Store assigns it.

## Model

| member | source | states |
|---|---|---|
| Sessions.Acquire | middleware/session/session.go:20-31 | The session handed out has a newly allocated empty record and is fresh. If every pooled session is cleared, it has no id, no Store and no context, and the pool stays all-cleared. The chosen session leaves the free list; storage and cookies are untouched. |
| Sessions.Clear | middleware/session/session.go:33-40 | Releasing leaves context and Store detached, id empty, record empty (or still nil) and fresh true. |
| Sessions.Release | middleware/session/session.go:33-42 | The released session is cleared and is the one appended to the pool. A pool of cleared sessions stays so. Storage and cookies are untouched. |
| Lifecycle.ClearIdempotent | middleware/session/session.go:33-42 | Releasing twice gives the same fields as releasing once; a cleared session is unchanged by it. |
| Lifecycle.ReleaseThenAcquireIsBlank | middleware/session/session.go:26-42 | After a release, whichever session the pool hands out is blank: empty record, fresh, and no id left over from the previous cycle. |
| Sessions.Set | middleware/session/session.go:59-62 | After Set(k, v), Get(k) is v and every other key reads as before. Context, Store, id and freshness are unchanged. |
| Sessions.Delete | middleware/session/session.go:64-67 | After Delete(k), Get(k) finds nothing and every other key reads as before. Context, Store, id and freshness are unchanged. |
| Lifecycle.Run | middleware/session/session.go:44-67 | Any sequence of Set and Delete calls keeps the context, Store, ID() and Fresh() of the session. |
| Lifecycle.UntouchedKeySurvives | middleware/session/session.go:54-67 | A key no Set or Delete in a sequence names reads the same after the whole sequence. |
| Lifecycle.GetAfterSetUntilOverwritten | middleware/session/session.go:54-62 | Get(k) after Set(k, v) returns v through any later calls that do not set or delete k. |
| Sessions.Destroy | middleware/session/session.go:69-82 | The record is emptied whether or not the delete succeeds; nothing else in the session changes. On a failed delete it returns that error, storage and cookies are unchanged and no revoke directive is written. On success the id is gone from storage, other ids are untouched, and exactly one revoke directive is appended to the session's context. |
| Lifecycle.DestroyForgetsEveryKey | middleware/session/session.go:71-72 | After Destroy, successful or not, Get finds nothing under any key. |
| Cookies.RevokeMatchesSessionCookie | middleware/session/session.go:124-172 | The revoke directive names the same cookie as the session cookie: same name, path, domain, Secure, HttpOnly and SameSite. It has an empty value and MaxAge -1. The session cookie carries the id and MaxAge equal to the expiration. |
| Sessions.Regenerate | middleware/session/session.go:84-95 | If the delete fails, it returns that error and session and world are unchanged. On success the old id is gone from storage and other ids are untouched. The new id is the generator's output, and the record, freshness and binding are unchanged. |
| Lifecycle.RegenerateEach | middleware/session/session.go:84-95 | A run of Regenerate calls keeps the session bound to its Store. |
| Lifecycle.RegenerateEachRetiresOldIds | middleware/session/session.go:84-95 | After successful Regenerate calls the id is the last generated one, and every earlier id is absent from storage. Storage under other ids, cookies, pool, record and freshness are unchanged. |
| Lifecycle.RegenerateTwice | middleware/session/session.go:84-95 | Two Regenerate calls with distinct generator outputs give two distinct ids, and both retired ids are absent from storage. |
| Lifecycle.RegenerateRetryIsSafe | middleware/session/session.go:87-90 | A Regenerate whose delete failed, retried successfully, ends exactly where a first-time success would. |
| Sessions.Save | middleware/session/session.go:97-122 | With an empty record: success, and session and world unchanged. On an encoding or write error: that error, with session and world unchanged. On success: storage maps the id to the encoded record with the configured expiration, other ids are untouched, one session cookie with the id is appended, and the session ends cleared and on the pool. |
| Lifecycle.SaveTwiceIsNoop | middleware/session/session.go:99-122 | After a successful Save, a second Save returns success and changes nothing, whatever the encoder and backend would answer. |
| Lifecycle.DestroyThenSaveIsNoop | middleware/session/session.go:70-102 | A Save after Destroy writes nothing to storage and issues no cookie. |
| Lifecycle.SaveRetryIsSafe | middleware/session/session.go:104-113 | A Save whose write failed, retried successfully, ends exactly where a first-time success would. |
| Cookies.Lower | middleware/session/session.go:135 | Lower-casing keeps the length and lower-cases each ASCII letter in place. |
| Cookies.SameSiteOf | middleware/session/session.go:135-142 | The SameSite choice is total. A setting equal to "strict" ignoring case gives Strict, one equal to "none" ignoring case gives None, and any other gives Lax, in both directions. |
| Cookies.SameSiteIgnoresCase | middleware/session/session.go:161-168 | Settings that differ only in letter case give the same SameSite attribute. |
| Storage.Set | middleware/session/session.go:111 | A failed write changes nothing and returns the error. A successful one stores the bytes and time to live under the id. Other ids are never touched. |
| Storage.Delete | middleware/session/session.go:75 | A failed delete changes nothing and returns the error. A successful one leaves the id absent, including when it was already missing. Other ids are never touched. |

## Left out

- `sync.Pool` concurrency and garbage collection of pooled objects are not modelled. The pool is a free list, and `pick` chooses which entry `Get` returns; a `pick` past the list stands for a fresh `New` allocation.
- Sessions are values in the model: `Release` appends a copy of the cleared session to the pool and hands the caller another copy. In Go, `releaseSession` puts the caller's own `*Session` into the pool, so once it is re-acquired the old handle and the new request's session are the same object. Using a session after a successful `Save` is therefore not modelled beyond an immediately following call.
- The single `World.storage` stands for the backend of the session's own Store (`s.config.Storage`). In Go each Store has its own backend while the session pool is one package-level variable shared by all Stores; several Stores are not modelled.
- Errors are one opaque type: the Go code returns the backend's or the encoder's `error` unchanged, so the model does not tell a storage failure from an encoding failure.
- The request context and the fasthttp cookie plumbing are not modelled. The context is an opaque reference, and each `SetCookie` on the response is one directive in the world's log. The `DelCookie` calls on the request and response headers are not modelled.
- The cookie `Expires` timestamp is left out because it comes from `time.Now()`. `Expiration` is modelled as whole seconds, so MaxAge equals it; the float conversion `Expiration.Seconds()` and its truncation are not modelled.
- The record's concrete type and its msgp encoding are not part of this model. The record is a map; encoding is an opaque function that may fail, and no decode round trip is claimed.
- Sessions.Save: the encoder is modelled as depending only on the record's key/value content. Records with equal contents but different insertion orders therefore store equal bytes here, which the Go encoder does not guarantee.
- The key generator's randomness and collision resistance are not modelled. Its output is a parameter.
- The concrete storage backend is not modelled. A failed call is assumed to leave the backend unchanged.
- `utils.ToLower` is not part of this model. `Cookies.Lower` stands in for it: ASCII letters are lowered and every other character is kept, which matches a byte-wise ASCII table on UTF-8 text.
- Dereferencing a `nil` context, Store or record panics in the Go code. The model does not represent that; each operation's `requires` asks for exactly the pointers the path taken dereferences.
