# PyStart backend proxy and user system, modelled in Dafny

PyStart is an IDE for learning Python, built on Thonny. This project
models two parts of it.

**The front end's link to the child interpreter** (`thonny/running.py`).
The `CPythonProxy` object owns the child process, a queue of messages the
child has sent, the current working directory and the execution state.
Fetching a message takes the next one off the queue. An output message is
first merged with the output messages of the same stream that follow it.
The fetched message's type then moves the state: `ToplevelResult`,
`DebuggerProgress` or `InputRequest`. Sending a command sets the state to
running for toplevel, debugger and input commands. `Run`, `Debug` and
`Reset` also kill the current child and start a new one first, with the
Python-related host variables filtered out of its environment. The
`Runner` builds the shell line that runs a script, checks the arguments of
the shell commands and drains the queue in its polling loop. Also modelled
are the parsing of a backend configuration option and of a virtual
environment's `pyvenv.cfg`.

**The user system plugin** (`plugins/user_system.py`). The `UserManager`
keeps the wallet, the metadata and a flag for keystores still protected by
the default password. It logs in (in the legacy or the mnemonic-wallet
format), logs in automatically, changes the password, imports a mnemonic,
creates a user and logs out. Also modelled:

- the code-signature block that signing appends and verifying cuts off;
- the `address|signature` login string;
- the Aeternity signed-message bytes (prefix, four-byte big-endian length, message);
- the checks on a new password and on an imported mnemonic;
- the filter and stable rank sort of the account window's network tabs.

Pure logic is written as functions with lemmas. The objects that the
source updates in place (`CPythonProxy`, `UserManager`) are classes. Their
methods assign the fields as the source does, and each method is proved to
take a pure step on a snapshot of the object (`SendStep`, `FetchStep`,
`LoggedIn`, ...). The lemmas are stated about those steps. Loops in the
source are methods with loops proved against a function:

- the output-merging loop;
- the environment filter;
- the argument loop of `execute_script`;
- the `pyvenv.cfg` reader;
- the polling loop;
- the network filter;
- the ordered search for a signature header.

Files:

- `pystr.dfy`: Python string operations (`strip`, `rstrip`, `find`, `split`, `join`, `lower`).
- `shellquote.dfy`: `shlex.quote`, and a POSIX word splitter to read quoted lines back.
- `messages.dfy`: messages, output coalescing, draining and the state a message leads to.
- `backend.dfy`: the proxy state, its pure steps and the `CPythonProxy` class.
- `runner.dfy`: `execute_script`, the shell handlers, configuration parsing, `pyvenv.cfg`, polling.
- `identity.dfy`: the short address, the login string, signed messages, and the password and mnemonic checks.
- `signature.dfy`: the code-signature block.
- `networks.dfy`: network tab selection and order.
- `accounts.dfy`: the user manager's state and the `UserManager` class.

## Model

`CPythonProxy.GetState` and `CPythonProxy.GetSysPath` are plain reads of a field (`get_state`, `get_sys_path`) and have no row.
`CPythonProxy.ChildExited` has no counterpart in the source. It is an event of the environment: the child ending by itself, which `poll()` later reports. It lets a caller put the proxy in the state where `kill_current_process` finds a dead child and leaves it alone.

| member | source | states |
|---|---|---|
| Messages.Coalesce | thonny/running.py:342-366 | the message taken off a non-empty queue is well formed and has the front message's type, and the queue left behind is strictly shorter |
| Messages.RunLength | thonny/running.py:348-363 | the number of messages the front output absorbs: every one of them shares its stream, and the next message does not |
| Messages.AbsorbRun | thonny/running.py:348-363 | the merge loop: it takes exactly the following outputs of the same stream and appends their data in order; the first message it leaves can not be absorbed |
| Messages.CoalesceFront | thonny/running.py:346-366 | popping the front and, for output, running the merge loop, gives exactly the coalesced front and the rest of the queue |
| Messages.CoalesceDecomposes | thonny/running.py:346-366 | the queue is the front message, the absorbed same-stream outputs and the rest; the merged message carries the front's data followed by theirs |
| Messages.CoalescePreserves | thonny/running.py:346-366 | taking a coalesced message off keeps every stream's text and the sequence of non-output messages |
| Messages.DrainPreserves | thonny/running.py:342-366 | draining the queue one fetch at a time yields the same text per stream and the same non-output messages, in order |
| Messages.DrainIsMaximal | thonny/running.py:352-362 | after draining, no output message is followed by an output of its own stream: merging stops only at a different type or stream |
| Messages.CoalesceStops | thonny/running.py:358-362 | the message put back at the front after merging could not have been merged |
| Messages.CoalesceTwo | thonny/running.py:354-357 | two outputs of one stream come off as one message carrying both data |
| Messages.ExampleQueue | thonny/running.py:342-366 | stdout a, stdout b, stderr x, stdout c drains to stdout ab, stderr x, stdout c |
| Messages.SingleCoalesce | thonny/running.py:346-366 | a non-output message, or an output no neighbour can join, comes off unchanged |
| Messages.NextStateMoves | thonny/running.py:331-337 | only the three reply types change the state, each always to the same state, whatever it was before |
| Messages.StateAfterAppend | thonny/running.py:328-339 | the state after two runs of messages is the state after the second run, started where the first left off |
| Messages.CoalesceKeepsState | thonny/running.py:328-366 | fetching one coalesced message leads to the state the raw messages it replaces would have led to |
| Messages.DrainKeepsState | thonny/running.py:328-366 | coalescing never changes the state a drained queue leads to |
| Messages.OutputsKeepState | thonny/running.py:331-337 | output messages never move the state |
| Backend.InheritedEnvironment | thonny/running.py:482-486 | a host variable is passed on exactly when its lower-cased name does not contain `python` and it is not `TK_LIBRARY` or `TCL_LIBRARY`; its value is kept |
| Backend.FilterEnvironment | thonny/running.py:482-486 | the filtering loop builds exactly the inherited environment |
| Backend.ChildEnvironment | thonny/running.py:482-518 | the command's own variables win; otherwise `PYTHONIOENCODING` is `ASCII` and `PYTHONUNBUFFERED` is `1` |
| Backend.ChildEnvironmentKeys | thonny/running.py:482-518 | a variable reaches the child exactly when it is inherited, set by the command or one of the two fixed ones; inherited values are unchanged |
| Backend.LaunchArgv | thonny/running.py:503-515 | the interpreter, `-u`, `-B` and the launcher come first; then the script and its arguments when the command names a script |
| Backend.SendSetsRunning | thonny/running.py:377-382 | after a toplevel, debugger or input command the state is running, whatever else happens |
| Backend.InlineCommandOnlyWrites | thonny/running.py:388-389 | an inline command only appends to the child's input; it fails without a child and then changes nothing |
| Backend.RestartStartsFresh | thonny/running.py:384-386 | a successful `Run`, `Debug` or `Reset` starts a new child in the proxy's directory, launched for this command, with an empty queue, the command as its only input and the search path it reported |
| Backend.RestartDiscardsQueue | thonny/running.py:479-498 | whatever its outcome, a restart leaves an empty queue; a missing interpreter is reported and a failed handshake writes nothing |
| Backend.KillProperties | thonny/running.py:409-413 | killing is idempotent; a dead or absent child is left as it was; a live one is dropped with its queue; state and directory are kept |
| Backend.FetchFromEmpty | thonny/running.py:343-344 | with no queue or an empty one, fetching yields nothing and changes nothing |
| Backend.FetchFromNonEmpty | thonny/running.py:328-339 | otherwise the coalesced front is yielded, the rest stays queued and the state moves by the front message's type |
| Backend.FetchDrains | thonny/running.py:328-366 | a fetch yields the next message of the drained queue, leaves a shorter queue draining to the rest, and moves the state by that message |
| Backend.ReceiveAppends | thonny/running.py:552-557 | a received message goes to the back of the queue, and a message with `cwd` changes the working directory |
| Backend.CPythonProxy.constructor | thonny/running.py:310-326 | the default option selects the private interpreter; an existing configured directory is the working directory, otherwise home; no child, state or queue |
| Backend.CPythonProxy.SetState | thonny/running.py:403-407 | only the state changes, to the given one |
| Backend.CPythonProxy.KillCurrentProcess | thonny/running.py:409-413 | the object takes the `Killed` step |
| Backend.CPythonProxy.StartNewProcess | thonny/running.py:478-543 | the object takes the `Started` step: fresh queue, then a missing interpreter or a failed handshake is reported, or the new child and its search path are kept |
| Backend.CPythonProxy.SendCommand | thonny/running.py:373-391 | the object takes the `SendStep` step: state, optional restart, then the write |
| Backend.CPythonProxy.SendProgramInput | thonny/running.py:393-394 | sending input is sending an input submission of the data |
| Backend.CPythonProxy.FetchRaw | thonny/running.py:342-366 | the queue loses its coalesced front, which is returned; nothing when there is no queue or it is empty |
| Backend.CPythonProxy.FetchNextMessage | thonny/running.py:328-339 | the object takes the `FetchStep` step |
| Backend.CPythonProxy.ReceiveMessage | thonny/running.py:545-559 | one listener iteration takes the `ReceiveStep` step; it reports whether there was a queue to append to |
| Runner.ExecuteScript | thonny/running.py:101-120 | the loop builds exactly the script command line: the optional `%cd` line, then `%<command>`, the quoted relative path, one quoted token per argument and a newline |
| Runner.ScriptLineWords | thonny/running.py:101-120 | the submitted text splits back into `%cd` and the directory when a change is needed, then `%<command>`, the relative path and the arguments, unaltered |
| Runner.ScriptLineShape | thonny/running.py:101-120 | the text ends with a newline, and starts with a `%cd` line exactly when a directory was requested and the backend is elsewhere |
| Runner.MainCommandWords | thonny/running.py:113-120 | the main command reads back as the command word, the path and the arguments |
| Runner.ExecuteFromShell | thonny/running.py:150-165 | accepted exactly with at least one argument, as a toplevel command with the first argument as file and the rest as arguments |
| Runner.ResetFromShell | thonny/running.py:167-175 | accepted exactly without arguments, as a bare `Reset` |
| Runner.CdFromShell | thonny/running.py:177-184 | accepted exactly with one argument, as a `cd` to that path |
| Runner.ShellRunLaunchesScript | thonny/running.py:150-165 | an accepted `%Run` or `%Debug` restarts the backend with the script and its arguments on the child's command line, in order; the command goes to the new child |
| Runner.ParseConfiguration | thonny/running.py:663-673 | without `(` the text is the name and the option is empty; with one, the name is stripped and free of `(`, and the option has no outer spaces or `)` |
| Runner.ParseConfigurationSplits | thonny/running.py:669-673 | with a `(`, the text is the part before the first `(`, the `(`, and the rest; the name is that first part without its maximal whitespace run at each end, and the option is the rest without its maximal run of spaces and `)` at each end |
| PyStr.StripCharsPadded | thonny/running.py:672-673 | `strip` leaves the piece of the string that has only stripped characters before and after it and neither starts nor ends with one |
| PyStr.StrippedUnique | thonny/running.py:672-673 | that piece is unique, so the description above determines what `strip` returns |
| Runner.ConfigurationRoundTrip | thonny/running.py:663-673 | `"Name (option)"` parses back into the name and the option |
| Runner.ConfigurationWithoutOption | thonny/running.py:667-668 | a name without a parenthesis is a configuration without an option |
| Runner.VenvInfo | thonny/running.py:770-780 | the line loop builds exactly the settings of the file's lines |
| Runner.VenvLookup | thonny/running.py:775-778 | a key is present exactly when some line defines it, and its value is the stripped value of the last such line |
| Runner.VenvLine | thonny/running.py:776-778 | a `key = value` line reads back as that key and value |
| Runner.PollMessages | thonny/running.py:214-232 | the dispatched messages are exactly the drained queue; the queue ends empty; the state is the one the raw queue leads to; child, directory, path and executable are kept |
| ShellQuote.Quote | thonny/running.py:105 | quoting never yields the empty word and leaves a non-empty safe word alone |
| ShellQuote.ReadQuote | thonny/running.py:114 | a quoted word followed by a blank or the end reads back as the original word, whatever it contains |
| ShellQuote.QuotedTailSnoc | thonny/running.py:117-118 | each loop iteration appends a space and the quoted argument |
| ShellQuote.SplitQuotedTail | thonny/running.py:117-118 | the argument part of the line splits back into the arguments |
| ShellQuote.QuotedLineRoundTrip | thonny/running.py:113-118 | a line of quoted words splits back into exactly those words |
| Identity.ShortAddress | plugins/user_system.py:78-84 | an address longer than 16 is its first 8 characters, `...` and its last 6; a shorter one is shown whole |
| Identity.ShortAddressIdempotent | plugins/user_system.py:78-84 | a shortened address has at most 17 characters, and shortening it again changes nothing |
| Identity.ShortAddressKeepsEnds | plugins/user_system.py:78-84 | two long addresses shorten alike exactly when their first 8 and last 6 characters agree |
| Identity.ParseLoginString | plugins/user_system.py:1783-1789 | without `\|` the fields are kept; otherwise the stripped input is the address, `\|` and the signature, with no `\|` in the address |
| Identity.LoginStringRoundTrip | plugins/user_system.py:1775 | the login string written after signing parses back into the address and the signature, even when the signature holds `\|` |
| Identity.AePrefix | plugins/user_system.py:2272 | the prefix, the ASCII bytes of `aeternity Signed Message:` and a newline, is 26 bytes long |
| Identity.SignedMessage | plugins/user_system.py:2388-2390 | the data is the prefix, the length in four bytes and the message; it is absent exactly when the length does not fit in four bytes |
| Identity.BigEndian4Decodes | plugins/user_system.py:2389 | the four big-endian bytes of a length decode back to it |
| Identity.BigEndian4Encodes | plugins/user_system.py:2389 | four bytes are the big-endian bytes of the number they denote |
| Identity.SignedMessageRoundTrip | plugins/user_system.py:2388-2390 | the signed data parses back into the message, and only data built from a message parses |
| Identity.SignedMessageInjective | plugins/user_system.py:2388-2390 | different messages never give the same signed data |
| Identity.SignData | plugins/user_system.py:1755-1762 | direct signing signs the message, prefixed signing the signed-message data, hashed signing the digest |
| Identity.ValidatePassword | plugins/user_system.py:1083-1094 | the empty password, one shorter than 6 and an unconfirmed one are refused in that order |
| Identity.PasswordAcceptedIff | plugins/user_system.py:1315-1325 | a password is accepted exactly when it has at least 6 characters and equals its confirmation |
| Identity.ValidateMnemonic | plugins/user_system.py:1235-1244 | a wrong word count is neither 12 nor 24, and an accepted mnemonic has 12 or 24 words |
| Identity.MnemonicAcceptedIff | plugins/user_system.py:1235-1244 | the text is accepted exactly when it has 12 or 24 whitespace-separated words, and then yields them; blank text is reported as empty |
| Identity.MnemonicRoundTrip | plugins/user_system.py:1235-1244 | 12 or 24 words joined by spaces are accepted as exactly those words |
| CodeSignature.SignatureStart | plugins/user_system.py:766-774 | the block start is -1 exactly without a marker; it is the first occurrence of the first of the four variants present, in the order new header after a line break, new header, legacy header after a line break, legacy header; so a new header always wins over a legacy one |
| CodeSignature.StripSignature | plugins/user_system.py:663-671 | code without a block is unchanged; otherwise the result is a prefix before the block, not ending in whitespace, and only whitespace lies between it and the block |
| CodeSignature.StripSignatureBlock | plugins/user_system.py:663-671 | the four ordered searches and the cut compute exactly the stripped code |
| CodeSignature.ExtractSignedCode | plugins/user_system.py:740-776 | verification finds nothing exactly when there is no marker, and otherwise recovers the stripped code, a prefix of the code |
| CodeSignature.SignatureBlock | plugins/user_system.py:691-700 | the block begins with an empty line and the header |
| CodeSignature.SignAsWritten | plugins/user_system.py:654-703 | the new code is the hashed text followed by the block; code never signed is hashed as it is |
| CodeSignature.SignAsWrittenVerifies | plugins/user_system.py:654-776 | as written, verification recovers the hashed text exactly when that text does not end in whitespace |
| CodeSignature.SignAsWrittenMismatch | plugins/user_system.py:674-703 | `print(1)` with a trailing newline is hashed with the newline but verified without it |
| CodeSignature.Sign | plugins/user_system.py:654-703 | corrected signing: the hashed text is the right-stripped code without its old block, followed by the new block |
| CodeSignature.SignThenVerify | plugins/user_system.py:766-776 | with corrected signing, verification always recovers exactly the text whose digest was signed |
| CodeSignature.ResignKeepsText | plugins/user_system.py:654-671 | signing signed code again hashes the same text as before |
| CodeSignature.StrippedHasNoHeader | plugins/user_system.py:663-671 | stripped code never holds the header after a line break |
| CodeSignature.VerifyRecoversStripped | plugins/user_system.py:766-776 | for a block appended to header-free text, verification recovers that text right-stripped |
| Networks.KeptNetworks | plugins/user_system.py:2554-2563 | only networks with a positive balance or a token are kept, each kept network is reported, and none is added |
| Networks.KeptNetworksAppend | plugins/user_system.py:2554-2563 | the filter keeps the reported order: filtering two reports in a row gives the kept networks of the first followed by those of the second |
| Networks.Rank | plugins/user_system.py:2574-2581 | mainnet, testnet and hc_liu rank 0, 1 and 2; every other network ranks 999 |
| Networks.SortByRankSorted | plugins/user_system.py:2583 | the tabs are in rank order |
| Networks.SortByRankStable | plugins/user_system.py:2583 | networks of equal rank keep their reported order |
| Networks.SortByRankPermutes | plugins/user_system.py:2583 | sorting drops and adds no network |
| Networks.StableSortUnique | plugins/user_system.py:2583 | any rank-ordered arrangement that keeps each rank's order is the sorted list, so the sort is exactly Python's stable sort |
| Networks.RebuildNetworkTabs | plugins/user_system.py:2554-2587 | nothing is shown exactly when no network has assets; otherwise the tabs are the kept networks in rank order |
| Networks.TabsAreKeptNetworksSorted | plugins/user_system.py:2554-2587 | the tabs are rank-ordered and are the kept networks, each as often as reported |
| Accounts.Get | plugins/user_system.py:192-193 | a missing key reads as `False` |
| Accounts.LoadedMetadata | plugins/user_system.py:280-288 | a missing file keeps what is loaded, a readable one replaces it, an unreadable one clears it |
| Accounts.LoadIdempotent | plugins/user_system.py:280-288 | loading twice from the same file is loading once |
| Accounts.ShortAddressOf | plugins/user_system.py:78-84 | no address is shown when logged out, and the shown address has at most 17 characters |
| Accounts.LogoutClears | plugins/user_system.py:231-236 | after logout there is no wallet, no metadata, no flag and no shown address: the initial state |
| Accounts.ChangePasswordWithoutWallet | plugins/user_system.py:212-213 | without a wallet the change fails and nothing changes |
| Accounts.ChangePasswordEffect | plugins/user_system.py:205-229 | success exactly with a wallet and a saved keystore; it keeps the wallet, clears the flag, records `default_password` as false and touches no other entry; failure changes nothing |
| Accounts.LoginDefaultFlag | plugins/user_system.py:192-193 | after login the flag is set exactly when the password is the default and the metadata says so |
| Accounts.LoginOutcome | plugins/user_system.py:149-203 | login succeeds exactly when a keystore exists and opens in the format the metadata names; failure keeps the wallet and the flag |
| Accounts.LegacyWalletHasNoMnemonic | plugins/user_system.py:165-189 | a legacy-format login gives a wallet with no mnemonic, at the legacy account's address |
| Accounts.AutoLoginOutcome | plugins/user_system.py:129-147 | automatic login succeeds exactly when a keystore exists, the metadata marks the default password and the keystore opens with it; the flag is then set |
| Accounts.AutoLoginAgreesWithLogin | plugins/user_system.py:129-147 | a successful automatic login ends where a login with the default password does |
| Accounts.ImportOutcome | plugins/user_system.py:238-270 | import succeeds exactly when the wallet is derived and saved; failure leaves no wallet; success logs in the derived wallet without the flag |
| Accounts.NoDefaultAfterChange | plugins/user_system.py:205-229 | after a password change, logging in again with the saved metadata never sets the flag, even with the default password |
| Accounts.AutoCreateThenAutoLogin | plugins/user_system.py:97-147 | a user created automatically is logged in automatically next time |
| Accounts.UserManager.constructor | plugins/user_system.py:36-41 | no wallet, no metadata, flag clear |
| Accounts.UserManager.Logout | plugins/user_system.py:231-236 | the object takes the `LoggedOut` step |
| Accounts.UserManager.LoadMetadata | plugins/user_system.py:280-288 | only the metadata changes, to the loaded metadata |
| Accounts.UserManager.ChangePassword | plugins/user_system.py:205-229 | the object takes the `PasswordChanged` step |
| Accounts.UserManager.Login | plugins/user_system.py:149-203 | the object takes the `LoggedIn` step |
| Accounts.UserManager.AutoLogin | plugins/user_system.py:129-147 | the object takes the `AutoLoggedIn` step |
| Accounts.UserManager.ImportFromMnemonic | plugins/user_system.py:238-270 | the object takes the `Imported` step |
| Accounts.UserManager.AutoCreateUser | plugins/user_system.py:97-127 | the object takes the `AutoCreated` step |

## Left out

- The child process and its pipes are values. `Popen`, reading the ready line and the stderr text, and the launcher file written by `_prepare_launcher` (thonny/running.py:415-476) are a `Host` parameter: interpreter found, launcher path, handshake outcome.
- `serialize_message` and `parse_message` are not part of this model.
  - Messages are dictionaries.
  - Commands are a datatype.
  - A decoded message is assumed to carry `stream_name` and `data` when it is program output (`WellFormed`).
- The lock and the listener threads are not modelled. `ReceiveMessage` is one iteration of `_listen_stdout`, and no interleaving with fetches is modelled.
  - The source's listener raises and ends when the queue is gone, after a kill. The model reports that no queue was there.
  - `_listen_stderr` is not modelled.
- `Backend.ChildEnvironment`: `str.lower` is modelled for ASCII letters only. A variable whose name lower-cases to `python` only through non-ASCII letters would be filtered by the source but kept by the model.
- `os.path.relpath` is a parameter of `ExecuteScript`.
- `os.path.exists` of the configured working directory and the private interpreter's path are parameters of the `CPythonProxy` constructor.
- Submitting the line to the shell view is left out.
- `parse_shell_command` is not part of this model. The shell handlers take the command word and the argument list it produces. The `assert` on the command name is their precondition.
- The handlers' `CommandSyntaxError` keeps the message template; the `%`-formatting with the command is not applied.
- Saving all editors before a shell `Run` is left out.
- Debug logging is left out.
- `Backend.Written`: a write to a child that has exited is recorded as sent. In the source, `stdin.write` and `flush` to a dead child can raise `BrokenPipeError` (thonny/running.py:388-389). Whether they do depends on pipe buffering and timing, which the model does not have.
- The `BackendReady` event that `_start_new_process` generates after the ready line (thonny/running.py:539) is left out, like the other Tk events.
- Tk `event_generate`, `set_option` and `update` in `_poll_vm_messages` are left out, and so is its re-arming with `after(50, ...)`. `PollMessages` is one round and returns the dispatched messages.
- The interpreter discovery (`_get_interpreters`, registry lookup, private virtual environment creation and upgrade) is not part of this model. The same goes for `get_description` and `execute_current`.
- `_get_venv_info` opens the file; the model takes the file's lines.
- BLAKE2b digests, ed25519 signatures and base58 encoding are parameters: `hashHex` and `signature` in signing, `msgHash` in `SignData`. So are keystore decryption, wallet generation and mnemonic derivation: `Keystore`, `Option<Wallet>`, the `saved` flags.
- Validating a mnemonic by deriving a wallet from it, after the word count, is not modelled.
- The verifying command's regular-expression extraction of signer, hash and signature, and its comparison of digests, are not modelled. `ExtractSignedCode` models which text gets hashed again.
- The editor and dialog guards are left out: no open editor, blank code, the confirmation before re-signing, the messages for an empty challenge. The timestamps are parameters.
- `Identity.SignData`: the text is taken to be already encoded; UTF-8 encoding is not modelled, and bytes are a `byte` subset type.
- JSON reading and writing of the metadata file is a `MetadataFile` parameter. A failing `_save_metadata` is caught and logged in the source and changes no state here.
- `Accounts.Account`: `_is_default_password` is stored as its truthiness. The source stores the value of a Python `and`, which is the metadata value itself when the password is the default one.
- `Accounts.Wallet`: a wallet's mnemonic is `None` for a legacy wallet (an absent value); `mnemonic` on the manager's side, returning `""` when logged out, is not modelled.
- The lazily created user directory and the keystore and metadata paths are left out.
- The HTTP requests of the account window, token lists, display names and explorer links are left out. Balances are real numbers, and float formatting is not modelled.
- `_rebuild_network_tabs` returns early when the window no longer exists; widget creation and destruction are left out.
- The other dialogs of the plugin (backup, export, delete, encryption, about) are not part of this model.

## Findings

| source | as written | input that shows it | evidently intended | confidence | as-written member | corrected member |
|---|---|---|---|---|---|---|
| plugins/user_system.py:674-776 | Signing code with no signature block hashes the code exactly as it is. Verifying hashes the code before the block with trailing whitespace removed. | A file `print(1)` ending in a newline: the signed digest is of `print(1)\n`, the recomputed one of `print(1)`, so freshly signed code fails verification | hash the right-stripped text in both places, so that verifying recovers the signed text | not executed | CodeSignature.SignAsWrittenMismatch | CodeSignature.SignThenVerify |
