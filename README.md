# OpenUEM console core in Dafny

This project models the decision and transformation logic of the OpenUEM
console (the EigerCode/openuem-console repository), together with proofs
about it. It covers four groups.

- **Enrollment tokens** (`enrollment.dfy`):
  - the unauthenticated redemption gate: empty value, then lookup, then inactive, then expired, then usage limit;
  - platform normalisation for redemption and for install commands;
  - the agent configuration document, in its platform and legacy variants;
  - the external message-broker (NATS) URL;
  - the install one-liners and the token-creation form.
- **Tenant memberships and the hoster tenant** (`usertenant.dfy`):
  in-memory tables of memberships (user, tenant, role, default flag), tenants (with the hoster flag) and users (with the legacy super-admin flag). `TenantStore` is a class whose methods update the tables, and the queries are functions that read them. ent's `Only()` is modelled as "exactly one row, else NotFound or NotSingular".
- **Access middleware** (`tenant_access.dfy`):
  each middleware is a function from the session uid, the tenant URL parameter and the store to an outcome (Login, Next with its context writes, BadRequest, Forbidden, InternalError). This file also holds the role lookup for the current tenant and the tenant-switcher list.
- **Branding and scoped agent operations**:
  - `branding_model.dfy`: the branding singleton `BrandingStore` and its per-column "empty clears" or "empty keeps" update rules;
  - `branding_handlers.dfy`: colour precedence, the logo and background MIME rules, and base64 data URLs (section 3 of RFC 2397);
  - `agents.dfy`: the tenant/site scoping rule (site -1 is the whole tenant), the distinct printer-name count and the scoped nickname update.

The library calls these depend on are modelled in small modules:

- `strconv.dfy`: Go's `strconv.Atoi`, exactly. The first error wins, and an out-of-range numeral yields the clamped value.
- `urls.dfy`: a simplified `url.Parse` and `Port()` for `scheme://host[:port]`, after section 3 of RFC 3986.
- `dates.dfy`: `time.Parse("2006-01-02", …)` and its days since the epoch.
- `base64.dfy`: `base64.StdEncoding` (section 4 of RFC 4648), with a decoder that undoes it.
- `text.dfy`, `forms.dfy`, `wrappers.dfy`: string helpers, echo's `FormValue`, and the Option/Result types.

Instants are integers, and "now" is an input.

## Behaviour worth noting

- Redemption never changes the token record. No use counter is incremented on the public download path, so `CurrentUses` only changes outside this core.
- Checks run in the order inactive, expired, usage limit. An inactive token that has also expired is therefore reported as inactive, not as expired.
- Expiry is strict. A token whose expiry equals "now" is still served.
- Redemption accepts the platforms linux, macos and windows, with linux as the fallback. Install commands accept linux, macos-amd64, macos-arm64 and windows.
- The configuration document carries the token and the broker URL, and no tenant or site identifiers.
- The Windows one-liner separates its statements with "; ", so a failed download does not stop the later statements. Only the Linux and macOS commands chain with `&&`.
- The "-1" bypass of `TenantAccessMiddleware` is textual. "-01" is parsed to -1 and goes through the membership check.

## Model

| member | source | states |
|---|---|---|
| Enrollment.CheckRedemption | internal/controllers/webserver/handlers/enrollment.go:191-209 | Each outcome holds iff its own condition holds and every earlier check passed. The order is missing value, unknown value, inactive, expired, usage limit. Success returns the stored token and holds iff the token is active, unexpired and within its limit. |
| Enrollment.RedemptionMonotoneInTime | internal/controllers/webserver/handlers/enrollment.go:204-206 | A token served at some instant is also served at every earlier instant. Once a token is refused as expired, it stays expired. |
| Enrollment.UnlimitedNeverExhausted | internal/controllers/webserver/handlers/enrollment.go:207-209 | A token with MaxUses 0 is never refused for its usage limit. |
| Enrollment.RedemptionPlatform | internal/controllers/webserver/handlers/enrollment.go:211-216 | The platform is always one of linux, macos or windows. A listed platform is kept, and anything else becomes linux. |
| Enrollment.PublicDownloadConfig | internal/controllers/webserver/handlers/enrollment.go:190-252 | The bundle is served iff the checks pass and the CA certificate is readable. It holds the platform document for the stored token with the derived broker URL, plus the certificate bytes. Otherwise the first failed check is the refusal, and an unreadable certificate is the 500 case. |
| Enrollment.GeneratePlatformConfigINI | internal/controllers/webserver/handlers/enrollment.go:319-347 | The document written line by line from ConfigLines: the agent settings, the token, the [NATS] section with the broker, and the [Certificates] section for the platform's certificate directory. What it holds is stated by SplitConfig, ConfigCarriesTokenAndBroker and WindowsDiffersOnlyInCertificates. |
| Enrollment.GenerateConfigINI | internal/controllers/webserver/handlers/enrollment.go:349-370 | The legacy document: the same lines with the relative certificate directory. NonWindowsMatchesLegacy and RelativeCertificateLines state what it holds. |
| Enrollment.NonWindowsMatchesLegacy | internal/controllers/webserver/handlers/enrollment.go:319-370 | For every platform other than "windows", the platform document equals the legacy document exactly. |
| Enrollment.WindowsDiffersOnlyInCertificates | internal/controllers/webserver/handlers/enrollment.go:334-345 | The Windows and legacy documents are both 20 lines and agree on the first 16. They differ only in the four certificate lines: absolute paths under C:\Program Files\EigerCode\AltiviewAgent\certificates\ versus relative paths. |
| Enrollment.RelativeCertificateLines | internal/controllers/webserver/handlers/enrollment.go:365-368 | The legacy certificate lines are CACert=certificates/ca.cer, AgentCert=certificates/agent.cer, AgentKey=certificates/agent.key and SFTPCert=certificates/sftp.cer. |
| Enrollment.SplitConfig | internal/controllers/webserver/handlers/enrollment.go:319-347 | When the token, broker and directory contain no newline, splitting the document at its newlines gives back exactly the lines it was written from. |
| Enrollment.ConfigCarriesTokenAndBroker | internal/controllers/webserver/handlers/enrollment.go:331-333 | Both variants read back as 20 lines. Line 11 is EnrollmentToken=<token> and line 14 is NATSServers=<broker>, verbatim. |
| Enrollment.DeriveExternalNatsUrl | internal/controllers/webserver/handlers/enrollment.go:375-379 | An empty domain, or an internal URL that does not parse, yields the input unchanged. |
| Enrollment.DeriveKeepsPort | internal/controllers/webserver/handlers/enrollment.go:381-386 | scheme://host:port with a non-empty domain becomes scheme://domain:port. |
| Enrollment.DeriveDefaultsPort | internal/controllers/webserver/handlers/enrollment.go:381-386 | scheme://host with no port becomes scheme://domain:4433. |
| Enrollment.DeriveKeepsRejectedHost | internal/controllers/webserver/handlers/enrollment.go:376-379 | An internal URL whose host holds an ASCII character url.Parse refuses unescaped (a space, '\\', '^', '`', '{', '}' or the vertical bar) is returned unchanged. |
| Enrollment.DeriveExample | internal/controllers/webserver/handlers/enrollment.go:372-374 | The example in the source comment: "tls://nats:4433" with domain "example.com" gives "tls://example.com:4433". |
| Enrollment.OneLinersFetchTokenConfig | internal/controllers/webserver/handlers/enrollment.go:296-315 | Each one-liner contains <console>/api/enroll/<token>/config?platform=linux, macos or windows, for its own platform. |
| Enrollment.LinuxOneLiner | internal/controllers/webserver/handlers/enrollment.go:296-301 | The five Linux steps joined with " && " inside `sudo bash -c '…'`. OneLinersFetchTokenConfig and LinuxCleanupRunsLast state what the command does. |
| Enrollment.MacOSOneLiner | internal/controllers/webserver/handlers/enrollment.go:303-308 | The five macOS steps, with the package chosen by arch, joined with " && " inside `sudo bash -c '…'`. OneLinersFetchTokenConfig and MacOSCleanupRunsLast state what the command does. |
| Enrollment.WindowsOneLiner | internal/controllers/webserver/handlers/enrollment.go:310-315 | The six PowerShell statements joined with "; ", so a failing statement does not stop the next. OneLinersFetchTokenConfig states that it fetches the token's Windows bundle. |
| Enrollment.AndChainRuns | internal/controllers/webserver/handlers/enrollment.go:296-308 | An && chain runs at most all of its steps, and always runs its first step. |
| Enrollment.LastStepRunsIffEarlierSucceed | internal/controllers/webserver/handlers/enrollment.go:296-308 | In an && chain the last step runs iff every earlier step succeeded. |
| Enrollment.LinuxCleanupRunsLast | internal/controllers/webserver/handlers/enrollment.go:296-301 | The Linux command ends with " && rm /tmp/c.zip /tmp/a.deb'", its fifth step. That clean-up runs iff the download, the unpack, the package download and the install all succeed. |
| Enrollment.MacOSCleanupRunsLast | internal/controllers/webserver/handlers/enrollment.go:303-308 | The macOS command ends with " && rm /tmp/c.zip /tmp/a.pkg'", its fifth step. That clean-up runs iff the four steps before it succeed. |
| Enrollment.InstallPlatform | internal/controllers/webserver/handlers/enrollment.go:260-265 | The platform is always one of the four install platforms. A listed platform is kept, and anything else becomes linux. |
| Enrollment.GetInstallCommand | internal/controllers/webserver/handlers/enrollment.go:254-294 | A non-integer id is refused, and then an unknown id. It succeeds iff the id parses and names a token, and then the command is the platform's one-liner for https://<host> and the stored token, titled Linux, macOS Intel, macOS ARM or Windows. |
| Enrollment.DownloadConfigZip | internal/controllers/webserver/handlers/enrollment.go:134-186 | A bundle is produced iff the id parses, names a token and the certificate is readable. It holds the legacy document with the derived broker URL, plus the certificate. |
| Enrollment.ParseMaxUses | internal/controllers/webserver/handlers/enrollment.go:72-75 | "" and a syntax error give 0. A numeral gives its value and an out-of-range numeral gives Atoi's clamped bound. The result is always a 64-bit value. |
| Enrollment.ParseSiteId | internal/controllers/webserver/handlers/enrollment.go:77-83 | A site id is kept iff Atoi accepts the field and the value is positive, and then it is that value. |
| Enrollment.ParseExpiresAt | internal/controllers/webserver/handlers/enrollment.go:85-91 | An expiry is kept iff the field parses as YYYY-MM-DD, and then it is midnight UTC at the start of that day. |
| Enrollment.FormNumbersRoundTrip | internal/controllers/webserver/handlers/enrollment.go:72-83 | For 64-bit n, the decimal text of n reads back as max_uses n. It reads back as site id n iff n > 0. |
| Enrollment.FormDateRoundTrip | internal/controllers/webserver/handlers/enrollment.go:85-91 | A valid date written as YYYY-MM-DD reads back as the start of that day. |
| Enrollment.CreateEnrollmentToken | internal/controllers/webserver/handlers/enrollment.go:58-100 | It fails iff the session tenant id is not an integer. Otherwise the new token carries that tenant and the parsed site, description, token value, max_uses and expiry. |
| Enrollment.ExpiryFromFormDate | internal/controllers/webserver/handlers/enrollment.go:85-91 | For an otherwise redeemable token whose expiry came from form date d: it is served iff now is at or before the start of d, and it is refused as expired iff now is after. |
| Strconv.AtoiAcceptsNumerals | internal/controllers/webserver/handlers/tenant_access.go:29-32 | Atoi accepts s iff s is an optionally signed, non-empty run of digits whose value fits in 64 bits, and then it returns that value. |
| Strconv.AtoiItoa | internal/controllers/webserver/handlers/enrollment.go:72-83 | Atoi reads back the decimal text of every 64-bit integer as that integer. |
| Strconv.Atoi | internal/controllers/webserver/handlers/tenant_access.go:29-32 | A parsed value is a 64-bit integer, a range error carries one of the two bounds, and "" is a syntax error. AtoiAcceptsNumerals states exactly which texts parse. |
| Urls.ParseUrl | internal/controllers/webserver/handlers/enrollment.go:376 | url.Parse reduced to its scheme and host, and whether it errs: control characters, a missing scheme, a first path segment with ':', an unclosed IPv6 literal, a bad port, a host character or %-escape Go refuses, invalid userinfo, and a bad %-escape in the path or fragment. ParseHostPort, ParseHostOnly and ParseRejectsHostChar state its results. |
| Urls.Port | internal/controllers/webserver/handlers/enrollment.go:381 | The port is always a run of digits, possibly empty. ParseHostPort and ParseHostOnly state which port a broker URL gives. |
| Urls.ParseHostPort | internal/controllers/webserver/handlers/enrollment.go:376-381 | scheme://host:port parses, and Port() returns port. The host is plain: letters, digits, the marks and delimiters Go keeps unescaped in a host, or non-ASCII, and no ':', '[', ']' or '%'. |
| Urls.ParseHostOnly | internal/controllers/webserver/handlers/enrollment.go:376-385 | scheme://host parses to that scheme and host, and Port() is empty. |
| Urls.ParseRejectsHostChar | internal/controllers/webserver/handlers/enrollment.go:376-379 | scheme://host:port does not parse when the host holds an ASCII character that Go's host check refuses unescaped. |
| Dates.ParseFormatDate | internal/controllers/webserver/handlers/enrollment.go:87 | Every valid date formatted as YYYY-MM-DD parses back to itself. |
| Dates.StartOfDayMonotone | internal/controllers/webserver/handlers/enrollment.go:87-89 | A strictly earlier valid date starts at a strictly earlier instant. |
| Dates.ParseDate | internal/controllers/webserver/handlers/enrollment.go:87 | A parsed date is a valid calendar date and its text has the YYYY-MM-DD shape. ParseFormatDate states the round trip. |
| Base64.DecodeEncode | internal/controllers/webserver/handlers/branding.go:200-201 | Decoding the standard base64 encoding of any byte string gives back that byte string. |
| Base64.Encode | internal/controllers/webserver/handlers/branding.go:200 | Every 3 bytes become 4 characters, and a short last group is padded. DecodeEncode states that it loses nothing. |
| UserTenants.Only | internal/models/usertenant.go:157-167 | Only() is NotFound iff no row matches and NotSingular iff several match. Otherwise it is the one match. |
| UserTenants.First | internal/models/usertenant.go:136-139 | First() is the first match, and NotFound iff there is none. |
| UserTenants.Filter | internal/models/usertenant.go:100-103 | A query returns exactly the rows satisfying its predicates and no more rows than the table has. |
| UserTenants.TenantStore.UserHasAccessToTenant | internal/models/usertenant.go:148-154 | Access is true iff a (user, tenant) row exists, whatever its role. |
| UserTenants.TenantStore.GetUserRoleInTenant | internal/models/usertenant.go:157-167 | The role is returned iff exactly one row exists, and it is that row's role. With no row the result is NotFound, an error rather than a role. |
| UserTenants.TenantStore.IsUserTenantAdmin | internal/models/usertenant.go:170-176 | With no row the result is an error, not false. Otherwise it is true iff the role is admin. |
| UserTenants.TenantStore.GetHosterTenant | internal/models/usertenant.go:206-210 | It succeeds iff exactly one tenant is flagged as hoster. It is NotFound iff none is. |
| UserTenants.TenantStore.IsHosterTenant | internal/models/usertenant.go:235-241 | It succeeds iff exactly one tenant has the id, and returns that tenant's flag. It is NotFound iff there is none. |
| UserTenants.TenantStore.IsSuperAdmin | internal/models/usertenant.go:261-281 | With a unique hoster, the result is true iff the user is admin there, and a non-member gets false with no error. Otherwise it is the user's legacy flag; an unknown user is NotFound and duplicate users are NotSingular. |
| UserTenants.TenantStore.GetUserDefaultTenant | internal/models/usertenant.go:126-145 | It returns the tenant of the user's unique default row when there is one, and otherwise the tenant of the user's first row. It is an error iff the user has no rows, and the tenant returned is always one the user can access. |
| UserTenants.TenantStore.GetUserTenants | internal/models/usertenant.go:99-115 | The loop collects, in row order, the loaded tenant of each of the user's rows and skips missing tenants. A tenant is listed iff one of the user's rows points to it. |
| UserTenants.TenantStore.GetTenantsWhereUserIsAdmin | internal/models/usertenant.go:213-232 | The same as GetUserTenants, restricted to rows with the admin role. |
| UserTenants.TenantStore.GetTenantUsers | internal/models/usertenant.go:179-195 | A user is listed iff a row of the tenant points to them. Rows whose user is missing are skipped. |
| UserTenants.TenantStore.GetUsersNotInTenant | internal/models/usertenant.go:317-337 | The result is exactly the users that have no row in the tenant, in table order. |
| UserTenants.TenantStore.TenantUserIds | internal/models/usertenant.go:319-329 | The loop collects the user id of every row of the tenant, in row order. |
| UserTenants.TenantStore.UsersNotIn | internal/models/usertenant.go:332-336 | The query returns exactly the users whose id is not in the list, in table order. An empty list returns every user. |
| UserTenants.TenantStore.AssignUserToTenant | internal/models/usertenant.go:23-54 | On an existing pair it returns an error and changes nothing. Otherwise the membership table becomes AssignRows (see AssignDefaultIsOnlyDefault and AssignPlainAppends). The other tables are unchanged. |
| UserTenants.TenantStore.ClearUserDefaults | internal/models/usertenant.go:37-46 | Every row of the user loses its default flag, and no other row or table changes. |
| UserTenants.ClearedHasNoDefault | internal/models/usertenant.go:37-46 | After the clear, the user has no default row. |
| UserTenants.AssignDefaultIsOnlyDefault | internal/models/usertenant.go:37-53 | After a default assignment, the new row is the user's only default row, and other users' rows are untouched. |
| UserTenants.AssignPlainAppends | internal/models/usertenant.go:48-53 | A non-default assignment only appends the row, so the user's existing default rows are unchanged. |
| UserTenants.AssignKeepsPairsUnique | internal/models/usertenant.go:25-35 | Assignment after the existence check keeps every (user, tenant) pair unique. |
| UserTenants.AssignKeepsDefaultsUnique | internal/models/usertenant.go:37-53 | Assignment keeps "at most one default row per user". |
| UserTenants.TenantStore.RemoveUserFromTenant | internal/models/usertenant.go:57-64 | The membership table becomes the rows that are not the (user, tenant) pair, in order. The other tables are unchanged. |
| UserTenants.RemoveExact | internal/models/usertenant.go:57-64 | Removal keeps exactly the rows other than the pair and drops every copy of the pair. |
| UserTenants.TenantStore.UpdateUserTenantRole | internal/models/usertenant.go:67-75 | The membership table becomes WithRoles, and the other tables are unchanged. |
| UserTenants.UpdateRoleExact | internal/models/usertenant.go:67-75 | Only the pair's rows change, and only in their role. Defaults stay unique. |
| UserTenants.TenantStore.SetUserDefaultTenant | internal/models/usertenant.go:78-96 | The membership table becomes clear-then-set, and the other tables are unchanged. |
| UserTenants.SetDefaultExact | internal/models/usertenant.go:78-96 | Each of the user's rows has isDefault true iff it is the named tenant's row; other users' rows are unchanged. If the pair does not exist, the user ends up with no default. |
| UserTenants.SetDefaultKeepsDefaultsUnique | internal/models/usertenant.go:78-96 | When pairs are unique, setting a default keeps defaults unique, so the user has at most one default row. |
| UserTenants.DefaultsUniqueCount | internal/models/usertenant.go:126-133 | When defaults are unique, the default-row query matches at most one row. |
| UserTenants.TenantStore.SetHosterTenant | internal/models/usertenant.go:244-258 | Two loops clear every hoster flag, then set the flag on the tenant with the id. The other tables are unchanged. |
| UserTenants.SetHosterExact | internal/models/usertenant.go:244-258 | Afterwards a tenant is hoster iff it has the id, and no other column changes. There is exactly one hoster if the id exists and ids are distinct, and none otherwise. |
| UserTenants.HostersAtMostOne | internal/models/usertenant.go:243-258 | With distinct ids, if only the tenant with the id is flagged, at most one hoster exists. |
| UserTenants.TenantStore.EnsureHosterTenantExists | internal/models/usertenant.go:297-314 | Nothing changes when some tenant is hoster. Otherwise a failed default-tenant lookup is returned unchanged, or the default tenant becomes the hoster. |
| TenantAccess.TenantAccessMiddleware | internal/controllers/webserver/handlers/tenant_access.go:14-50 | An empty uid gives Login. "" or "-1" gives Next with no writes. A non-integer parameter gives BadRequest. A non-member gets Forbidden (iff), and a member gets Next with tenant_id and user_id written (iff). It never gives InternalError. |
| TenantAccess.TenantAdminMiddleware | internal/controllers/webserver/handlers/tenant_access.go:53-84 | An empty uid gives Login. An empty or non-integer tenant gives BadRequest, with no "-1" bypass. InternalError holds iff the role lookup fails (no row or several rows). Forbidden holds iff the role is operator or user, and Next iff it is admin, writing nothing. |
| TenantAccess.SuperAdminMiddleware | internal/controllers/webserver/handlers/tenant_access.go:88-114 | An empty uid gives Login. InternalError holds iff there is no unique hoster or the role lookup in the hoster tenant fails. Forbidden holds iff the role there is operator or user, and Next iff it is admin. The tenant parameter is ignored. |
| TenantAccess.TenantOperatorMiddleware | internal/controllers/webserver/handlers/tenant_access.go:117-148 | It is like the admin gate: InternalError iff the role lookup fails, Next iff the role is admin or operator, and Forbidden iff it is user. |
| TenantAccess.GetCurrentUserTenantRole | internal/controllers/webserver/handlers/tenant_access.go:151-174 | An empty uid, or a tenant of "" or "-1", gives ("", no error). A non-integer tenant is an error. Otherwise the result is the name of the user's role in the parsed tenant, or the lookup's error passed on. |
| TenantAccess.BypassIsTextual | internal/controllers/webserver/handlers/tenant_access.go:23-41 | "-1" skips the check, while "-01" (also -1 to Atoi) is checked for membership of tenant -1. |
| TenantAccess.AdminPassesOperatorGate | internal/controllers/webserver/handlers/tenant_access.go:117-148 | Whoever passes the admin gate also passes the operator gate. |
| TenantAccess.SuperAdminGateVersusFlag | internal/controllers/webserver/handlers/tenant_access.go:96-111 | With a unique hoster, the super-admin gate passes iff IsSuperAdmin is true. Without one, the gate fails with InternalError and never consults the legacy flag. |
| TenantAccess.GetUserAccessibleTenants | internal/controllers/webserver/handlers/tenant_access.go:177-201 | An empty uid gives no tenants. Otherwise there is one entry per tenant of the user, in order, with its id, description, default and hoster flags and the user's role there. Every listed tenant is one the user can access. |
| TenantAccess.EntriesFor | internal/controllers/webserver/handlers/tenant_access.go:188-198 | The loop builds exactly one entry per tenant, in order, from that tenant's fields and the user's role lookup there. A failed lookup shows as an empty role. |
| BrandingModel.BrandingStore.GetBranding | internal/models/branding.go:11-13 | It returns the record, and NotFound iff there is none. |
| BrandingModel.BrandingStore.GetOrCreateBranding | internal/models/branding.go:16-31 | An existing record is returned unchanged. Otherwise the default record is created and stored. |
| BrandingModel.DefaultBrandingColumns | internal/models/branding.go:21-26 | The default record has product name "OpenUEM", primary "#16a34a", secondary "#6d28d9", the powered-by notice shown and no logos. |
| BrandingModel.BrandingStore.UpdateBranding | internal/models/branding.go:34-113 | The update is built column by column on the record with b's id, giving Merged. It is NotFound, with nothing changed, when there is no such record. |
| BrandingModel.MergedStoresEditIff | internal/models/branding.go:38-110 | Saving b stores exactly b iff b keeps the record's id and does not empty a primary colour, secondary colour or product name that is set. |
| BrandingModel.MergedNeverEmptiesKeptColumns | internal/models/branding.go:55-70 | Once the primary colour, secondary colour or product name is set, no update empties it. |
| BrandingModel.MergedIdempotent | internal/models/branding.go:34-113 | Applying the same update twice is the same as applying it once. |
| BrandingModel.UpdatesKeepId | internal/models/branding.go:35 | Every update keeps the record's id. |
| BrandingModel.BrandingStore.UpdateColors | internal/models/branding.go:149-168 | On the record that GetOrCreateBranding yields, the colours are updated as Recolored. |
| BrandingModel.RecoloredSetsGivenColours | internal/models/branding.go:157-165 | Each non-empty colour argument is stored, an empty one keeps the stored colour, and no other column changes. |
| BrandingModel.AccentClearedOnlyByUpdateBranding | internal/models/branding.go:61-65 | An empty accent keeps the stored accent under UpdateColors, but clears it under UpdateBranding. |
| BrandingModel.RecoloredNoOpAndIdempotent | internal/models/branding.go:149-168 | Three empty colours change nothing, and repeating an UpdateColors changes nothing further. |
| BrandingModel.BrandingStore.SaveLogo | internal/models/branding.go:116-146 | One logo column is set on the stored record, or on the default record it creates. |
| BrandingModel.BrandingStore.DeleteLogo | internal/models/branding.go:176-206 | With no record the result is NotFound and nothing changes. Otherwise only that logo column is cleared. |
| BrandingModel.WithLogoChangesOneColumn | internal/models/branding.go:121-123 | A logo save or delete sets its own column, and leaves the other two logos and every other column unchanged. |
| BrandingHandlers.ChosenColour | internal/controllers/webserver/handlers/branding.go:72-85 | A non-empty *_color_text value wins over the picker, and an empty one leaves the picker value. |
| BrandingHandlers.PostBrandingColors | internal/controllers/webserver/handlers/branding.go:71-92 | UpdateColors is called with the three chosen colours. |
| BrandingHandlers.ColourFormPrecedence | internal/controllers/webserver/handlers/branding.go:72-87 | A colour with an empty picker and text keeps its stored value. A non-empty text value is stored even against a different picker value. |
| BrandingHandlers.PostBrandingText | internal/controllers/webserver/handlers/branding.go:95-114 | It always succeeds. The stored record becomes Merged of the record with the form written in (see TextFormEffect). |
| BrandingHandlers.TextFormEffect | internal/controllers/webserver/handlers/branding.go:101-109 | The powered-by notice is shown iff the checkbox is exactly "on". E-mail, URLs, terms, privacy and footer take the form values. An empty product name keeps the stored one. Nothing else changes. |
| BrandingHandlers.DataUrlRoundTrip | internal/controllers/webserver/handlers/branding.go:200-201 | A data URL parses back to the media type and the bytes it was built from, when the type has no ';'. |
| BrandingHandlers.DataUrl | internal/controllers/webserver/handlers/branding.go:200-201 | "data:", the media type, ";base64," and the standard base64 of the bytes. DataUrlRoundTrip states that it can be taken apart again. |
| BrandingHandlers.AcceptedLogoMime | internal/controllers/webserver/handlers/branding.go:189-197 | A logo is accepted iff the sniffed type starts with "image/" or the lower-cased filename ends in ".svg". The sniffed image type is kept, and otherwise the SVG type is used. The stored type always starts with "image/". |
| BrandingHandlers.LogoRuleIgnoresFilenameCase | internal/controllers/webserver/handlers/branding.go:192 | The ".svg" test does not depend on the filename's letter case. |
| BrandingHandlers.StoredLogoDecodes | internal/controllers/webserver/handlers/branding.go:189-201 | Every stored logo, SVG uploads included, is an image data URL that decodes back to the uploaded bytes. The only premise is that a sniffed image/ type has no ';', which holds for every image type http.DetectContentType reports. |
| BrandingHandlers.HandleLogoUpload | internal/controllers/webserver/handlers/branding.go:171-219 | No file gives NoFileSelected. A refused type gives InvalidImage, and nothing changes in either case. Otherwise the data URL is saved into the named logo column; an unknown logoType saves nothing and reports no error. |
| BrandingHandlers.DeleteBrandingLogo | internal/controllers/webserver/handlers/branding.go:46-68 | It passes on DeleteLogo's NotFound, or clears just that logo. |
| BrandingHandlers.PostBrandingLogin | internal/controllers/webserver/handlers/branding.go:117-153 | A background that is not an image/ type is refused, with no SVG exception, and the record is left as GetOrCreateBranding made it. Otherwise the welcome text is replaced, and the background becomes the upload's data URL or is kept when there is no upload. |
| BrandingHandlers.DeleteBrandingLoginBackground | internal/controllers/webserver/handlers/branding.go:156-168 | With no record the result is NotFound. Otherwise exactly the background is emptied, and every other column is unchanged. |
| Agents.ParseScope | internal/models/printers.go:15-22 | The site id is parsed first: its failure is InvalidSiteId. Then a tenant failure is InvalidTenantId. Otherwise both values are returned. |
| Agents.CountDifferentPrinters | internal/models/printers.go:14-29 | A count is produced iff both ids parse, and a parse error is passed on. |
| Agents.PrintersInScope | internal/models/printers.go:24-27 | A printer is returned iff it is in the table and its agent is in scope, and the result is never longer than the table. |
| Agents.Names | internal/models/printers.go:25-27 | A name is in the result iff some given printer has it. |
| Agents.CountAtMostPrintersInScope | internal/models/printers.go:24-28 | The count is the number of distinct names among the printers in scope, at most the number of those printers. |
| Agents.NamesAtMostPrinters | internal/models/printers.go:25 | There are never more distinct names than printers. |
| Agents.ScopeRule | internal/models/printers.go:24-27 | Site -1 covers agents on any site of the tenant. Another site id covers agents on that site only, and only if the site belongs to the tenant. |
| Agents.ForeignSiteCountsNothing | internal/models/printers.go:26-27 | A site that is not the tenant's matches no printer, so the count is 0. |
| Agents.SiteCountAtMostTenantCount | internal/models/printers.go:24-28 | Narrowing from the whole tenant to one site never adds a name and never raises the count. |
| Agents.Inventory.SaveNickname | internal/models/nickname.go:14-27 | A bad site or tenant id is an error and changes nothing. Otherwise the agent table becomes the scoped UPDATE, and the sites are unchanged. |
| Agents.RenamedOnlyChangesTheAgentsNickname | internal/models/nickname.go:23-26 | Only nicknames change, and only those of rows with agentID that are in scope. Every other row is exactly as before. |
| Agents.NicknameSetIff | internal/models/nickname.go:23-26 | Afterwards a row with agentID carries the nickname iff one did before or such a row was in scope. |

## Left out

- Persistence: the ent ORM, SQL and database errors. The tables are in memory, so ent calls fail only with not-found or not-singular.
- Concurrency: the clear-then-set sequences in SetUserDefaultTenant and SetHosterTenant are two statements. The model runs them one after the other and claims nothing about concurrent calls.
- Library calls: `uuid.New` (the token value is an input), `time.Now` ("now" is an input) and `http.DetectContentType` (the sniffed type is part of the upload). `url.Parse` keeps only the scheme and the host; see ParseUrl below.
- ZIP assembly, `os.ReadFile` of the CA certificate (its bytes are an optional input), response headers and the download filename built from the first 8 characters of the token. DownloadConfigZip and PublicDownloadConfig return the document and the certificate rather than an archive.
- File I/O failures while reading uploads (`file.Open`, `io.ReadAll`) are not modelled; an upload is its name, bytes and sniffed type.
- Rendering, i18n messages, sessions and the echo context. These include ListEnrollmentTokens, listEnrollmentTokensWithError, GetBrandingSettings, renderBrandingWithSuccess and GetBrandingForViews. Handlers return their outcome or error instead.
- The store calls whose code sits outside this core are not modelled: GetEnrollmentToken*, CreateEnrollmentToken (store side), DeleteEnrollmentToken, ToggleEnrollmentToken, GetSites, AgentsExists, ServersExists and GetDefaultTenant. Token lookups are maps, and GetDefaultTenant's result is a parameter of EnsureHosterTenantExists.
- GetUserTenantsWithRoles, GetTenantUsersWithRoles and GetTenantsForUser are not modelled separately. The first two are the membership filters without the tenant/user loading, and the third is GetUserTenants.
- SetSuperAdmin and internal/commands/make_superadmin.go are not modelled. They set the legacy flag through a database connection.
- BrandingModel.DefaultBranding: columns the create call does not set are taken to be empty. The ent schema's own defaults are not part of this model.
- UserTenants.TenantStore.GetUserDefaultTenant: returns the chosen row's tenant id. The case where that tenant row is missing, and the code would return a nil tenant, is not distinguished.
- Agents: an agent's site edge is modelled as a set of site ids, and ids in the site and agent tables are not required to be unique.
- The install one-liners and the configuration document are built from lists of steps and lines. Their literal text follows the source piece by piece, but the proofs speak about the pieces, not about the whole literal string.
- BrandingHandlers.DataUrlRoundTrip needs a media type with no ';', because its parser ends the type at the first ';'. StoredLogoDecodes needs this only of a sniffed image/ type. The model takes the sniffed type as an input and does not encode which types http.DetectContentType reports, and none of its image types has parameters.
- Urls.ParseUrl: the host is returned with its %-escapes as written, while Go decodes them. Only non-ASCII bytes and %25 may be escaped in a host, so Port() reads the same digits either way. The userinfo, path, query and fragment are checked but not kept.
- Urls.ParseUrl: the text inside an IPv6 literal's brackets is not checked to be an IPv6 address.
