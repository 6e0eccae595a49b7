# Verified models of the winegrid firmware

Dafny models of the stateful parts of the winegrid repository: over-the-air update across
reboots for its ThingsBoard and Azure clients, the ownership protocols of two LoRa modem
drivers, the text protocols that have to undo each other, and the driver loops that have to
agree with a buffer or register layout. `dafny verify dfyconfig.toml` checks everything.

## How it is built

A protocol with several tasks, handlers or power cuts is a state machine on values: one event is
one shared access or one persistent write, `Step` says what it does, `Run` follows a sequence of
events, and the main results speak about every run. Code that works in place is a class or an
array method, proved equal to a function whose properties are proved beside it.

| file | models |
|---|---|
| `Ota.dfy`, `OtaOutcome.dfy`, `OtaClient.dfy`, `OtaLink.dfy` | two firmware slots, `pending_fw` and `failed_fw`, the rollback bootloader, both OTA clients |
| `FwDownload.dfy`, `FwClient.dfy` | the chunked download of the ThingsBoard client |
| `Identity.dfy`, `Registration.dfy`, `Telemetry.dfy` | the cached hub and device id, the 202 polling loop, the forced-telemetry flag |
| `Modem.dfy`, `ModemTiming.dfy`, `ModemWakeUp.dfy`, `ModemSession.dfy`, `ModemSolo.dfy`, `ModemHazards.dfy` | the SX12xx modem ownership word, clients and radio handlers |
| `Rylr.dfy` | the RYLR semaphore and pending flags |
| `SasToken.dfy`, `DirectMethod.dfy`, `JsonExtract.dfy`, `Rn2483.dfy` | percent-encoding and tokens, method topics, the JSON extractor, UART lines and hex commands |
| `SensorHub.dfy`, `Acquisition.dfy` | sensor-hub register windows, the MCP320x sampling loop |
| `Text.dfy`, `Decimal.dfy`, `Hexadecimal.dfy` | bounded C text and number printing |

## What is assumed

- One NVS set with its commit is atomic; so is one write of the bootloader's slot records. A new image
  boots once unconfirmed; if it resets before it is marked valid, the bootloader goes back to the other slot.
- For the anti-loop results: the delivered image crashes before `reconcile_pending_ota` or carries another
  version. An image of the right version that crashes after reconcile and before it is marked valid is outside them.
- SHA-256, the token signature, probes and conversions are arbitrary functions or values.
- SX12xx: `Modem` and `ModemTiming` assume nothing. `ModemWakeUp` and `ModemSession` assume only that a handler is not preempted
  between its first shared access and its compare-and-swap. `ModemSolo` and `ModemHazards` also assume that radio events are handled
  one at a time, `rx_done` arriving only while the radio is armed by `Rx`, `tx_done` and `tx_timed_out` only while
  it is armed by `Send`. `ModemSolo` has one client task, `ModemHazards` any number. The clear and the signal of
  `rx_done` may be separated.
- The bytes of a partition are an image through an arbitrary function (`OtaLink`).
- The sensor hub writes the slaves' samples to its output registers back to back from DATA_OUT, in the order of the
  programmed triples.
- RYLR: `on_script_finished` is called only for the script of the current owner.
- `esp_mqtt_client_stop` returns when no handler runs. No SPI or I2C read fails in a fetch or a sampling.

## Where the code falls short of its comments

Each is a lemma with its exact condition, or a concrete run.

- Azure can save another text in `pending_fw` than the version it compares offers by: for versions longer than 31
  bytes, and for urls that contain a newline (unless a version of 31 bytes is repeated behind it), because `ota_task`
  splits url and version at the first newline. The anti-loop promise fails exactly when the two texts differ
  (`Ota.NeverLoopsExactly`, `Ota.SavedExactly`, `Ota.AzureLoopsForever`, `Ota.NewlineLoops`).
- A power cut between saving `pending_fw` and switching the boot partition blacklists a version that this update did
  not run; so does any later power cut after a failed download, for ThingsBoard only, because Azure erases `pending_fw` on
  that path (`OtaOutcome.BlamedExactly`, `OtaOutcome.FailedDownloadBlamed`).
- An announced size of 0 costs one request, not zero, and a longer package passes when the announced size is a
  positive multiple of 4096 (`FwDownload.DownloadComplete`, `FwDownload.LongerPackage`).
- SX12xx: a client that waits forever is woken exactly when `rx_done` or `tx_done` took the modem while
  `operation_done` was its signal; after `tx_timed_out`, a NULL-callback cancel or a late release of another task
  did, it waits forever (`ModemWakeUp.NoLostWakeUp`, `ModemWakeUp.LostForever`,
  `ModemHazards.TxTimeoutStrandsSender`, `ModemHazards.CancelStrandsReceiver`). That is the same as who ended its
  session as long as nobody releases the modem between another party's acquire and its store of `operation_done`
  (`ModemSession.WokenBySession`), in particular with one client task and only then
  (`ModemHazards.WakesBySessionExactly`).
- SX12xx, with two client tasks or more: a late release takes the other task's session and a blocking receive is no
  longer all or nothing (`ModemHazards.AllOrNothingExactly`), against the comment at
  `zephyr-drivers-referencia/lora/sx12xx_common.c:122-130`; and `rx_done` can pass NULL to `k_poll_signal_raise`
  (`ModemHazards.NeverFaultsExactly`).
- RYLR: the documented cancel can never end an armed reception, because it must first take the semaphore that
  reception holds (`Rylr.ArmedReceptionIsPermanent`); a failed script start keeps the modem (`Rylr.FailedStartStrands`).
- Azure: a signature with more than 24 escapes before its last character is cut (`SasToken.SignatureFits`).
- The Azure README says there is no OTA; the code has it and the model follows the code.

## Model

| member | source | states |
|---|---|---|
| `Ota.NoBrick` | esp-idf-azure-dps/main/app_main.c:875-888 | Over every run of either client, with a reset possible between any two persistent writes: no state is bricked, some slot holds a whole confirmed image, the next reset boots a whole image, and two resets in a row boot a confirmed one. |
| `Ota.WritesSpareTheRunningSlot` | esp-idf-azure-dps/main/app_main.c:583-608 | In every reachable state flash is only written in the slot that is not running, and only while the running image is confirmed. |
| `Ota.AntiLoop` | esp-idf-azure-dps/main/app_main.c:646-662 | While the server offers one version v, from any urls whose offers save the text they are compared by (for ThingsBoard all do), and delivers only images that crash before reconcile or carry another version, any run with power cuts anywhere boots a freshly installed image at most once. |
| `Ota.NeverLoopsExactly` | esp-idf-azure-dps/main/app_main.c:655-669 | The anti-loop promise holds for a client, a set of urls and a version if and only if every offer saves in pending_fw the text that offers are compared by. |
| `Ota.SavedExactly` | esp-idf-azure-dps/main/app_main.c:559-565 | ThingsBoard always does; Azure does from a url without a newline exactly for versions of at most 31 bytes, and from a url with one never for versions shorter than that. |
| `Ota.AzureLoopsForever` | esp-idf-azure-dps/main/app_main.c:559-565 | Otherwise the Azure client installs, crashes and rolls back any number of times, because the check compares the version with another text than it once saved. |
| `Ota.NewlineLoops` | esp-idf-azure-dps/main/app_main.c:665-668 | The concrete input: a url that ends in a newline makes a fresh board loop any number of times over the one-byte version 2. |
| `OtaOutcome.GoodUpdateSticks` | esp-idf-azure-dps/main/app_main.c:822-836 | After any run that installed a healthy image carrying the pending version, whatever offers and power cuts follow up to the first time an image is marked valid: that image is the new one if and only if the bootloader ran once. Then it is confirmed, the old slot is untouched, nothing is blacklisted and the version is not accepted again; otherwise the device is back on the old image and the new one is aborted. |
| `OtaOutcome.BlamedExactly` | esp-idf-thingsboard/main/app_main.c:497-511 | After any run of either client, a power cut before the boot partition is switched makes the next boot blacklist a version that this update did not run if and only if the run has saved pending_fw and neither erased it nor reset since, and that text is not the running version, which it never is when every offer saves the text it is compared by; for Azure the first condition is exactly being inside the download, its verification or its cleanup. |
| `OtaOutcome.UnfinishedMeans` | esp-idf-azure-dps/main/app_main.c:592-622 | What that condition says of the events: the last save of pending_fw has no erase and no reset behind it. |
| `OtaOutcome.BlamedIsRefused` | esp-idf-azure-dps/main/app_main.c:655-662 | Such a boot ends idle on the same image with the pending version in failed_fw, and no text that compares equal to it is accepted any more. |
| `OtaOutcome.FailedDownloadBlamed` | esp-idf-thingsboard/main/app_main.c:172-179 | A run from a fresh board whose download failed and was cleaned up, and whose next boot blacklists the version if and only if the client is ThingsBoard. |
| `Ota.RunKeepsSafe` | esp-idf-azure-dps/main/app_main.c:882-888 | The slot invariant behind NoBrick is kept by every run from any state that has it. |
| `OtaClient.Firmware.ReconcilePendingOta` | esp-idf-azure-dps/main/app_main.c:822-836 | Appends to the log exactly the writes of a reconcile in their order, leaves no readable pending_fw, and sets failed_fw exactly when the pending version is not the running one. |
| `OtaClient.Firmware.ConfirmImage` | esp-idf-azure-dps/main/app_main.c:882-888 | Leaves the running slot confirmed and the other one as it was, as one step of a legal run. |
| `OtaClient.Firmware.StartFwUpdate` | esp-idf-thingsboard/main/app_main.c:122-170 | Starts exactly when the version is accepted and the partition opens; then the spare slot is erased and pending_fw is the version, otherwise nothing changes. |
| `OtaClient.Firmware.TriggerOta` | esp-idf-azure-dps/main/app_main.c:650-669 | Starts exactly when no update is in progress and the version is accepted, and then hands over url, newline and version in one text. |
| `OtaClient.Firmware.Split` | esp-idf-azure-dps/main/app_main.c:556-565 | Splits that text at its first newline, whatever url and version contain, and cuts the version to 31 bytes. |
| `OtaClient.Firmware.DownloadImage` | esp-idf-azure-dps/main/app_main.c:595-615 | The read loop succeeds if and only if some read is a complete end of stream and every read before it is data that was written; the log gains exactly one write for each read up to the first that is not, and only the spare slot changes. |
| `OtaClient.Firmware.OtaTask` | esp-idf-azure-dps/main/app_main.c:556-644 | Fetches from the part before the first newline; installs if and only if the connection, the erase and the switch succeed and some read is a complete end of stream with only written data before it, with what follows that newline, cut, in pending_fw; otherwise the boot slot is unchanged and pending_fw is erased if it had been saved. |
| `OtaClient.CutAnywhere` | esp-idf-azure-dps/main/app_main.c:875-881 | Cutting a client's log of writes at any point leaves a device that still comes up on a confirmed image within two resets. |
| `OtaLink.StartsWhenAccepted` | esp-idf-thingsboard/main/app_main.c:323-348 | For any attribute payload, the chunk machine starts an update exactly when the size is known, the update protocol accepts the version and the partition opens; it then has saved that version as pending and is ready for chunk 0, and otherwise only the attributes changed. |
| `OtaLink.DownloadRefines` | esp-idf-thingsboard/main/app_main.c:122-255 | Every run of the chunked download, for any chunks, attributes and outcomes of the flash calls, is a run of the update protocol: start, refusal, chunk, failure, verification and switch happen together, with the same pending_fw and failed_fw. |
| `OtaLink.NewImageIsGenuine` | esp-idf-thingsboard/main/app_main.c:181-218 | Over every such run the boot partition is switched exactly when the download restarts, and the image then booted for the first time was parsed from bytes whose number and digest were the announced ones. |
| `FwDownload.ChunkIntegrity` | esp-idf-thingsboard/main/app_main.c:230-255 | After every event of every run, chunks and attribute changes in any order: written bytes, hashed bytes and the received counter agree while an update is in progress, and whatever was installed had the announced size and digest. |
| `FwDownload.InstallUsesPresentAttributes` | esp-idf-thingsboard/main/app_main.c:181-218 | The boot partition is switched if and only if a chunk arrives during an update, is written, brings the bytes written to fw_size, their hex digest is fw_checksum and the algorithm SHA256, ignoring case, at that very moment, and the closing calls succeed; what is installed is those bytes. |
| `FwDownload.ChunkExactly` | esp-idf-thingsboard/main/app_main.c:230-255 | In every reachable state a chunk during an update is written and hashed behind the others; the update goes on, with one request for the next chunk, exactly when the chunk is not empty and the size is not reached. One that cannot be written ends the update, and one outside an update changes nothing. |
| `FwDownload.DownloadEnds` | esp-idf-thingsboard/main/app_main.c:230-255 | Against a server that answers the last request, for any image and any announced size, the download makes exactly RequestCount requests, for chunks 0, 1, 2 and so on under its own request number, is in progress until then, and installs exactly when what was written has the announced size and digest. |
| `FwDownload.DownloadComplete` | esp-idf-thingsboard/main/app_main.c:113-120 | An image of the announced size arrives whole in ceil(size/4096) requests, or one when it is empty, and is installed exactly when the checksum matches. |
| `FwDownload.LongerPackage` | esp-idf-thingsboard/main/app_main.c:248-251 | A package longer than announced is installed exactly when the announced size is a positive multiple of 4096 and the checksum is that of the prefix. |
| `FwDownload.RunKeepsConsistent` | esp-idf-thingsboard/main/app_main.c:82-94 | The agreement of counters, flash and hash, and every text within its buffer, is kept by every run. |
| `FwClient.Client.HandleFwChunkData` | esp-idf-thingsboard/main/app_main.c:230-255 | The handler, in place, is the chunk step of the machine for every outcome of the flash calls. |
| `FwClient.Client.FinishFwUpdate` | esp-idf-thingsboard/main/app_main.c:172-228 | The handler, in place, is the finishing step, with the digest printed and compared by loops. |
| `FwClient.Client.DigestHex` | esp-idf-thingsboard/main/app_main.c:183-188 | The printing loop yields two hex digits for each of the 32 digest bytes. |
| `FwClient.Client.CompareIgnoringCase` | esp-idf-thingsboard/main/app_main.c:190-191 | The comparison is true exactly for texts of equal length that agree in lower case. |
| `FwDownload.PayloadTexts` | esp-idf-thingsboard/main/app_main.c:257-279 | Over a whole payload, title, version, checksum and algorithm each end up with the last text under the name fw_title, fw_version, fw_checksum or fw_checksum_algorithm, cut to 63, 31, 64 or 15 bytes, whatever else is in it, and keep their value when there is none. |
| `FwDownload.PayloadNumbers` | esp-idf-thingsboard/main/app_main.c:257-279 | Likewise fw_size, which is known exactly from the first number given for it, and publishInterval, for which numbers below 1000 do not count. |
| `FwDownload.OtherNamesIgnored` | esp-idf-thingsboard/main/app_main.c:257-279 | An item under any other name changes nothing. |
| `FwClient.Client.HandleAttributesPayload` | esp-idf-thingsboard/main/app_main.c:323-348 | The handler, in place, applies all attributes in their order, as the rows above say, and then makes the version check. |
| `Identity.OneRegistration` | esp-idf-azure-dps/main/app_main.c:895-909 | Over all runs with resets anywhere and the event task interleaved, a stored device id comes with the hub of the same reply, and every connection uses one reply's pair. |
| `Identity.IdentityIsFixed` | esp-idf-azure-dps/main/app_main.c:895-898 | Once both words are stored, no later run changes either or connects with anything else. |
| `Identity.LastReplyDecides` | esp-idf-azure-dps/main/app_main.c:304-320 | The last assigned reply since the reset decides: a client that gave up has seen none, and one that has seen one connects with that reply's pair, cut, having stored it. |
| `Identity.AnswerDecides` | esp-idf-azure-dps/main/app_main.c:340-384 | From a waiting client, in every interleaving of the two tasks: an assigned reply ends with the client connected and the pair, cut to 127 bytes, stored; a rejection or the timeout ends with it having given up. |
| `Identity.BootDecides` | esp-idf-azure-dps/main/app_main.c:893-911 | A boot from any reachable state connects without registering, with the stored pair, if and only if a device id is stored; otherwise it waits for a reply. |
| `Identity.RestsSoon` | esp-idf-azure-dps/main/app_main.c:893-911 | In every interleaving the two tasks rest within thirteen steps, and only connected, given up or waiting for a reply. |
| `Modem.Exclusivity` | zephyr-drivers-referencia/lora/sx12xx_common.c:70-98 | For any number of clients and events in any interleaving, at most one party is in the CLEANUP section, exactly while the word says so, and acquires equal releases plus one exactly when the modem is not free. |
| `Modem.OnlyCleanerFrees` | zephyr-drivers-referencia/lora/sx12xx_common.c:92-97 | The word becomes FREE only by the last step of the one party that is in the section, and nobody is in it afterwards. |
| `ModemSolo.ReceiveAllOrNothing` | zephyr-drivers-referencia/lora/sx12xx_common.c:237-281 | One client task: in every race of timeout against rx_done a returned lora_recv either expired with its buffer untouched, or returned min(packet, buffer) bytes with exactly that packet prefix in front of the old contents. |
| `ModemSolo.SendOutcome` | zephyr-drivers-referencia/lora/sx12xx_common.c:200-217 | A returned lora_send reports success if and only if tx_done ended its session and its wait did not expire, read off the events of the run; it reports a failure only after its wait expired, and then it released the modem itself or tx_done took it all the same, never tx_timed_out. |
| `ModemSolo.ReceiveOutcome` | zephyr-drivers-referencia/lora/sx12xx_common.c:264-281 | A returned lora_recv reports a size if and only if rx_done ended its session, and a timeout if and only if it released the modem itself, which it does only after its wait expired. |
| `ModemSolo.NothingAfterReturn` | zephyr-drivers-referencia/lora/sx12xx_common.c:119-153 | Once a blocking call has returned, no step of any party changes its buffer, its size or its signal. |
| `ModemSolo.StaysOnAir` | zephyr-drivers-referencia/lora/sx12xx_common.c:283-353 | Once started, an asynchronous reception goes on, armed and with the modem taken, whatever packets come and calls are made, until it is cancelled; a test wave until a cancel, tx_done or tx_timed_out. |
| `ModemTiming.ReportedExactly` | zephyr-drivers-referencia/lora/sx12xx_common.c:200-217 | For any number of parties in any interleaving, with no assumption: a returned lora_send reports success if and only if no expiry of its wait is among the events, whatever it learnt afterwards; a lora_recv reports a timeout only if one is. |
| `ModemTiming.TimedOutExactly` | zephyr-drivers-referencia/lora/sx12xx_common.c:208-210 | What that set of calls is: those at whose wait an expiry event happened at some point of the run. |
| `ModemTiming.RaisedReturns` | zephyr-drivers-referencia/lora/sx12xx_common.c:208-216 | A client whose signal is raised returns with its next step, from either wait. |
| `ModemTiming.ReleaseFrees` | zephyr-drivers-referencia/lora/sx12xx_common.c:83-98 | Any party that comes to its compare-and-swap while the word is BUSY frees the modem within five more steps of its own, whatever everybody else does in between. |
| `ModemTiming.TakerRaises` | zephyr-drivers-referencia/lora/sx12xx_common.c:119-165 | rx_done or tx_done that takes the modem raises the signal it has read, that of an asynchronous send included, within six more steps of its own. |
| `ModemTiming.EndingMeans` | zephyr-drivers-referencia/lora/sx12xx_common.c:83-98 | What the records of a call mean, event by event: the session's record names whoever takes the modem while the call holds the word, the other record whoever does so while operation_done is its signal, and nothing else writes either. |
| `ModemTiming.ReleaseExactly` | zephyr-drivers-referencia/lora/sx12xx_common.c:83-98 | A release that finds the word BUSY leaves, with nobody in between, the radio asleep, no operation_done and the word FREE; one that finds it otherwise changes nothing, and then a client waits on for its signal and anybody else is done. |
| `ModemTiming.AsyncPacketRearms` | zephyr-drivers-referencia/lora/sx12xx_common.c:108-116 | A packet during an asynchronous reception arms the radio again and does nothing else to the modem. |
| `ModemTiming.FaultMeans` | zephyr-drivers-referencia/lora/sx12xx_common.c:133-152 | An rx_done that has taken the modem and stores through unset rx_params, or raises a NULL signal, is recorded as a fault. |
| `ModemTiming.BlockingCallsStart` | zephyr-drivers-referencia/lora/sx12xx_common.c:219-262 | On a free modem, with nobody in between, lora_send and lora_recv leave it taken and transmitting or receiving, with the caller's own signal in operation_done (for lora_recv also its buffer in rx_params and no callback), and wait. |
| `ModemTiming.AsyncCallsStart` | zephyr-drivers-referencia/lora/sx12xx_common.c:219-352 | Likewise lora_recv_async leaves it receiving with the callback stored, lora_send_async transmitting with the given signal or none, and lora_test_cw transmitting; all three return at once. |
| `ModemWakeUp.NoLostWakeUp` | zephyr-drivers-referencia/lora/sx12xx_common.c:155-165 | For any number of client tasks and handlers in any interleaving: a client that failed to release and waits forever has been signalled, or a handler holds its signal and is about to raise it, if and only if rx_done or tx_done took the modem while operation_done was its signal. |
| `ModemWakeUp.WokenWithinSixSteps` | zephyr-drivers-referencia/lora/sx12xx_common.c:264-277 | In every continuation in which that handler takes six steps, whatever everybody else does in between, the signal is raised and the client has returned or can return at once. |
| `ModemWakeUp.LostForever` | zephyr-drivers-referencia/lora/sx12xx_common.c:167-171 | A waiting client stays blocked in every continuation if tx_timed_out, a NULL-callback cancel or another party's release took the modem while operation_done was its signal, or if operation_done ceased to be its signal without that; for any number of tasks. |
| `ModemWakeUp.WaiterFates` | zephyr-drivers-referencia/lora/sx12xx_common.c:264-277 | A client that waits forever is answered, lost in that way, or undecided, which is that operation_done still is its signal; and only one of these. |
| `ModemWakeUp.UndecidedStep` | zephyr-drivers-referencia/lora/sx12xx_common.c:100-119 | An undecided client is answered by the first rx_done or tx_done that takes the modem, whosever session that ends, and by no other step; every other step leaves it lost or undecided. |
| `ModemSession.OneOpenSession` | zephyr-drivers-referencia/lora/sx12xx_common.c:70-98 | In every run of any parties a blocking call's session is open exactly while that call holds the word, which is then BUSY. |
| `ModemSession.SessionsAgree` | zephyr-drivers-referencia/lora/sx12xx_common.c:122-130 | For any number of parties: if no compare-and-swap to CLEANUP hits a party between its acquire and its store of operation_done, who ended a call's session is always who took the modem while operation_done was its signal. |
| `ModemSession.WokenBySession` | zephyr-drivers-referencia/lora/sx12xx_common.c:264-277 | In such runs the session of a client that waits forever has been ended; it is woken if and only if rx_done or tx_done did that, and stays blocked in every continuation otherwise. |
| `ModemSolo.OnlyTxTimeoutLoses` | zephyr-drivers-referencia/lora/sx12xx_common.c:208-216 | With one client task the session of a client that waits forever was lost to tx_timed_out if and only if its signal is neither raised nor held by the one handler. |
| `ModemHazards.WakesBySessionExactly` | zephyr-drivers-referencia/lora/sx12xx_common.c:264-277 | Under the radio and handler assumptions, a client that waits forever is woken exactly when rx_done or tx_done ended its session, in every run, if and only if the driver has at most one client task. |
| `ModemHazards.CancelledYetWoken` | zephyr-drivers-referencia/lora/sx12xx_common.c:225-235 | The run for one direction: a cancel ends a lora_send's session before it stores its signal, and the tx_done that ends another task's session wakes it. |
| `ModemHazards.EndedYetUnanswered` | zephyr-drivers-referencia/lora/sx12xx_common.c:225-235 | The run for the other: tx_done ends a lora_send's session before it stores its signal, and no handler will raise that signal. |
| `ModemHazards.NeverFaultsExactly` | zephyr-drivers-referencia/lora/sx12xx_common.c:103-152 | rx_done uses no NULL signal and no NULL rx_params in any run if and only if the driver has at most one client task. |
| `ModemSolo.RunKeepsInv` | zephyr-drivers-referencia/lora/sx12xx_common.c:122-130 | The invariant behind these results: at any time the call in progress is open, held by the handler that will raise its signal, woken, or lost to tx_timed_out. |
| `ModemHazards.TxTimeoutStrandsSender` | zephyr-drivers-referencia/lora/sx12xx_common.c:208-215 | A concrete run, for any number of tasks, in which tx_timed_out beats the sender's own timeout and blocks it in every continuation. |
| `ModemHazards.CancelStrandsReceiver` | zephyr-drivers-referencia/lora/sx12xx_common.c:285-293 | A concrete run with two tasks or more in which a NULL-callback cancel blocks a receive in every continuation. |
| `ModemHazards.AllOrNothingExactly` | zephyr-drivers-referencia/lora/sx12xx_common.c:237-281 | Under the radio and handler assumptions, a returned lora_recv is all or nothing in every run if and only if the driver has at most one client task. |
| `ModemHazards.SecondClientBreaksReceive` | zephyr-drivers-referencia/lora/sx12xx_common.c:264-277 | The run under those assumptions with two tasks or more: a late release takes the other task's session and reports a timeout over a filled buffer. |
| `SasToken.UrlEncode` | esp-idf-azure-dps/main/app_main.c:101-116 | The buffer holds the encoding of the prefix that fits, a terminator, and its old contents behind it; no escape is split and nothing is overrun. |
| `SasToken.KeptExactly` | esp-idf-azure-dps/main/app_main.c:105 | The prefix ends at the first place with fewer than four spare bytes. |
| `SasToken.WholeExactly` | esp-idf-azure-dps/main/app_main.c:105 | The whole input is encoded if and only if the encoding of all but its last character leaves more than four bytes, in particular when encoded length + 3 is below the size. |
| `SasToken.DecodeEncode` | esp-idf-azure-dps/main/app_main.c:101-116 | Percent-decoding the encoding of any bytes gives them back. |
| `SasToken.EscapeExactly` | esp-idf-azure-dps/main/app_main.c:101-113 | Letters, digits and the four marks of section 2.3 of RFC 3986 stand for themselves; any other byte becomes a percent sign and its two upper-case digits. |
| `SasToken.ParseToken` | esp-idf-azure-dps/main/app_main.c:195-201 | Resource, signature, expiry and optional policy can be read back from a token. |
| `SasToken.SignedStringDetermines` | esp-idf-azure-dps/main/app_main.c:180-181 | Resource and expiry can be read back from the signed string, so it determines both. |
| `SasToken.SignedStringFits` | esp-idf-azure-dps/main/app_main.c:177-181 | The signed string never exceeds its 256-byte buffer. |
| `SasToken.FullTokenText` | esp-idf-azure-dps/main/app_main.c:177-201 | The token text: scheme, encoded resource prefix, encoded signature of that prefix, a newline and the expiry, then the expiry and the optional policy, under their field names and with buffers of 192 and 96 bytes. |
| `SasToken.BuildSasToken` | esp-idf-azure-dps/main/app_main.c:162-203 | None exactly for a key that is not base64; otherwise the full token cut at the output buffer, signed over the encoded prefix of the resource and an expiry one hour ahead. |
| `SasToken.TokenCarries` | esp-idf-azure-dps/main/app_main.c:162-203 | A token that fits its buffer always parses, to the parts of resource and signature that fitted theirs; it carries the request if and only if both were encoded whole. |
| `SasToken.SignatureFits` | esp-idf-azure-dps/main/app_main.c:192-193 | A 44-character signature fits its 96-byte buffer if and only if at most 24 of its first 43 characters need escapes. |
| `Decimal.ReadPrint` | esp-idf-azure-dps/main/app_main.c:196-201 | Reading the decimal text of an integer gives it back. |
| `Decimal.PrintExactly` | esp-idf-azure-dps/main/app_main.c:196-201 | Every digit of the printed text is the decimal digit of its place, a minus sign stands before exactly the negative numbers, and there is no leading zero. |
| `DirectMethod.HandleDirectMethodRequest` | esp-idf-azure-dps/main/app_main.c:412-461 | A reply exactly for a topic with a name and a non-empty id; its action is Status if and only if the name is getStatus and Reboot if and only if it is reboot, and its topic has status 200 for those two and 404 for every other name, with the id, cut to 127 bytes. |
| `DirectMethod.ParsedExactly` | esp-idf-azure-dps/main/app_main.c:414-437 | For any topic: the name is what stands before the first slash, the end or byte 32; the id is everything behind the first marker from there on. |
| `DirectMethod.TopicRoundTrip` | esp-idf-azure-dps/main/app_main.c:414-437 | Parsing a topic built from a name and an id recovers both if and only if the name has no slash and at most 31 bytes and the id is not empty, even when name or id contain the marker. |
| `DirectMethod.ReplyCarriesId` | esp-idf-azure-dps/main/app_main.c:439-456 | The reply topic carries exactly the id if and only if it has at most 97 bytes. |
| `JsonExtract.JsonExtractString` | zephyr-thingsboard/src/thingsboard_mqtt.c:114-143 | Found exactly when the pattern occurs; then the output is the value behind the first match cut to its size, terminated, with the rest of the buffer kept; every access is within bounds. |
| `JsonExtract.ExtractedExactly` | zephyr-thingsboard/src/thingsboard_mqtt.c:110-143 | In any text, the value extracted is what stands behind the first occurrence of the quoted key, colon and quote that does not end the text, up to the next quote or the end. |
| `JsonExtract.ExtractUndoesPrint` | zephyr-thingsboard/src/thingsboard_mqtt.c:110-143 | On any printed flat object with alphanumeric keys and quote-free values, extraction finds a key exactly when it occurs and yields its first value. |
| `JsonExtract.ProvisioningReadsReply` | zephyr-thingsboard/src/thingsboard_mqtt.c:240-292 | A printed provisioning reply yields a token exactly when its status, read up to a zero byte, is SUCCESS and it carries credentials that read as something, namely those cut to 63 bytes. |
| `Rn2483.Driver.ReadLine` | zephyr-rn2483-poc/module/drivers/lora/rn2483/rn2483.c:66-90 | Returns the length of the next line without carriage returns, cut to 63 bytes and terminated in the buffer, or a timeout when the deadline comes first. |
| `Rn2483.LineComes` | zephyr-rn2483-poc/module/drivers/lora/rn2483/rn2483.c:66-90 | A line is read if and only if a newline is delivered before the deadline. |
| `Rn2483.ReadEnds` | zephyr-rn2483-poc/module/drivers/lora/rn2483/rn2483.c:66-90 | A read ends right behind the first newline, or at the deadline when that comes first, and leaves everything behind it to the next read. |
| `Rn2483.SaysExactly` | zephyr-rn2483-poc/module/drivers/lora/rn2483/rn2483.c:92-107 | A line compares equal to a literal exactly when, without carriage returns, it is that text or has it before a zero byte; the cut at 63 bytes never shows. |
| `Rn2483.ConsumesOneLine` | zephyr-rn2483-poc/module/drivers/lora/rn2483/rn2483.c:73-87 | A read that succeeds consumes exactly the bytes up to and including the next newline. |
| `Rn2483.ReadsStayAligned` | zephyr-rn2483-poc/module/drivers/lora/rn2483/rn2483.c:92-107 | When every line arrives in time the n-th read gets the n-th line, whatever the polling pattern. |
| `Rn2483.Driver.Config` | zephyr-rn2483-poc/module/drivers/lora/rn2483/rn2483.c:123-150 | Sends as many of the four commands as it reads replies, stops at the first that is not ok, and succeeds exactly when all four are. |
| `Rn2483.CommandsExactly` | zephyr-rn2483-poc/module/drivers/lora/rn2483/rn2483.c:92-150 | Command k of a series goes out exactly when each one before it was answered ok by the line after it, and all succeed exactly when all were. |
| `Rn2483.ConfigCommandsWhole` | zephyr-rn2483-poc/module/drivers/lora/rn2483/rn2483.c:123-149 | For every 32-bit frequency, power, spreading factor and bandwidth, none of the four commands is cut by its 48-byte buffer. |
| `Rn2483.Driver.BuildTx` | zephyr-rn2483-poc/module/drivers/lora/rn2483/rn2483.c:155-167 | For payloads of at most 64 bytes the command is built in its 144-byte buffer without being cut. |
| `Rn2483.Driver.Send` | zephyr-rn2483-poc/module/drivers/lora/rn2483/rn2483.c:152-188 | Refuses longer payloads without sending; otherwise sends one command and succeeds exactly when the next line is ok and the one after it is radio_tx_ok. |
| `Rn2483.TxRoundTrip` | zephyr-rn2483-poc/module/drivers/lora/rn2483/rn2483.c:163-167 | Decoding the hex of the command gives the payload back. |
| `Telemetry.MessageIsServed` | esp-idf-azure-dps/main/app_main.c:751-770 | Each cloud-to-device message, at any point of any interleaving, is followed by a publish within six steps of the worker while the hub stays connected. |
| `Telemetry.PublishRate` | esp-idf-azure-dps/main/app_main.c:751-770 | In every run there are at most as many publishes as messages and whole seconds of 200 ms passes together. |
| `Telemetry.RegularCycle` | esp-idf-azure-dps/main/app_main.c:751-770 | Without messages the cycle is exact: connected, from a look at the flag on, the next publish comes with the step that completes the interval's number of 200 ms passes, and not before. |
| `Telemetry.PublishPeriod` | esp-idf-azure-dps/main/app_main.c:751-770 | Likewise from one such publish to the next, the pass right after the publish included. |
| `Telemetry.DisconnectSilences` | esp-idf-azure-dps/main/app_main.c:755-756 | After a loss of the connection at most the publish already decided on goes out until the next connection. |
| `Telemetry.LastSettingWins` | esp-idf-azure-dps/main/app_main.c:520-531 | The interval is the last one offered that is not below 1000, and the connection state the last one reported. |
| `Registration.ReplyIsPolled` | esp-idf-azure-dps/main/app_main.c:352-370 | Each 202 reply is followed by a status poll within five steps of the loop, as long as the loop keeps running. |
| `Registration.PollsFollowReplies` | esp-idf-azure-dps/main/app_main.c:352-370 | No run makes more status polls than there were 202 replies. |
| `Registration.LoopEnds` | esp-idf-azure-dps/main/app_main.c:350-370 | Whatever the replies, the loop ends within 1501 of its steps, and within five after a terminal reply. |
| `Registration.GivesUpOnlyAfterTimeout` | esp-idf-azure-dps/main/app_main.c:350-352 | Without a terminal reply the loop does not end before its 300 passes of 200 ms are over. |
| `Rylr.OneOwner` | zephyr-drivers-referencia/lora/rylrxxx.c:324-365 | For any number of callers the semaphore is 0 exactly when one operation owns the modem, a call in progress or an armed asynchronous one; a free modem has no pending flag; the busy check after a successful take never fires. |
| `Rylr.CallOutcome` | zephyr-drivers-referencia/lora/rylrxxx.c:324-553 | A call that finds the modem free is over within nine of its steps: it arms a reception exactly when it is an asynchronous receive in receive mode, and starts a transmission exactly when it is an asynchronous send in transmit mode and nothing fails; a configuration sets the mode it is told exactly when its three scripts all start and end well, and nothing else changes the mode; a send starts its one script only in transmit mode. |
| `Rylr.ArmedReceptionIsPermanent` | zephyr-drivers-referencia/lora/rylrxxx.c:518-553 | Once an asynchronous reception is armed, every later call, the documented cancel included, is refused without any effect, in every continuation. |
| `Rylr.FailedStartStrands` | zephyr-drivers-referencia/lora/rylrxxx.c:457-461 | rylr_send_async leaves a script whose callback is due if it started; otherwise the semaphore stays taken and the flag set in every continuation. |
| `Rylr.StartedSendReleases` | zephyr-drivers-referencia/lora/rylrxxx.c:183-195 | The callback of a started asynchronous send clears the flag and frees the modem. |
| `SensorHub.EnumeratedExactly` | zephyr-drivers-referencia/iis2iclx/iis2iclx_shub.c:757-791 | An entry is listed if and only if it reads its own chip id at one of its two addresses and fewer than the slave limit of the entries before it do so. |
| `SensorHub.EnumeratedIncreases` | zephyr-drivers-referencia/iis2iclx/iis2iclx_shub.c:757-791 | Listed table indices are strictly increasing. |
| `SensorHub.Windows` | zephyr-drivers-referencia/iis2iclx/iis2iclx_shub.c:799-805 | Every output window lies within the 18 output registers and begins where the one before it ends, the first at DATA_OUT; windows of different sensors are disjoint and in the order of the list. |
| `SensorHub.Hub.Enumerate` | zephyr-drivers-referencia/iis2iclx/iis2iclx_shub.c:757-791 | The probing loops list exactly those entries, and each listed entry gets the first of its two addresses at which it reads its own chip id. |
| `SensorHub.Hub.AssignWindows` | zephyr-drivers-referencia/iis2iclx/iis2iclx_shub.c:799-805 | Each listed sensor gets the register right behind the windows before it. |
| `SensorHub.Hub.SetDataChannel` | zephyr-drivers-referencia/iis2iclx/iis2iclx_shub.c:631-653 | Slave triples are programmed in the same order, with read address, sub-address and length. |
| `SensorHub.Hub.GetIdx` | zephyr-drivers-referencia/iis2iclx/iis2iclx_shub.c:678-693 | The first listed sensor of the wanted kind, or -ENOTSUP exactly when there is none. |
| `SensorHub.OutputLandsInWindows` | zephyr-drivers-referencia/iis2iclx/iis2iclx_shub.c:640-646 | Samples written back to back in triple order land exactly in the windows. |
| `SensorHub.Hub.Fetch` | zephyr-drivers-referencia/iis2iclx/iis2iclx_shub.c:695-719 | After a fetch every slot holds the whole sample of its own sensor. |
| `SensorHub.ReadKind` | zephyr-drivers-referencia/iis2iclx/iis2iclx_shub.c:695-719 | After init and fetch, the slot that get_idx names holds the sample of the first entry of that kind that reads its own chip id and is within the slave limit, and there is none exactly when no entry is, for every probe outcome. |
| `Acquisition.CheckRequest` | zephyr-drivers-referencia/adc_mcp320x_referencia_spi/adc_mcp320x.c:107-129 | A request is accepted exactly when the resolution is 12, every channel exists, and two bytes per channel and sampling fit the buffer. |
| `Acquisition.ValidateBufferSize` | zephyr-drivers-referencia/adc_mcp320x_referencia_spi/adc_mcp320x.c:81-105 | The top-down mask loop refuses exactly the buffers smaller than two bytes per selected channel and sampling. |
| `Acquisition.Adc.Acquire` | zephyr-drivers-referencia/adc_mcp320x_referencia_spi/adc_mcp320x.c:249-267 | One sampling terminates, clears the mask, and appends one reading per channel in ascending order, leaving earlier cells alone. |
| `Acquisition.Adc.Turn` | zephyr-drivers-referencia/adc_mcp320x_referencia_spi/adc_mcp320x.c:157-175 | A repeat returns the pointer to where the sampling began, so its cells are written again; otherwise they are kept. |
| `Acquisition.Adc.StartRead` | zephyr-drivers-referencia/adc_mcp320x_referencia_spi/adc_mcp320x.c:107-135 | Any request on a buffer of the size it names: refused exactly when resolution, mask or size are wrong, and then nothing is written; accepted, it leaves the rows of the committed samplings in order, within the buffer, for every sequence of callback decisions. |
| `Acquisition.Adc.Session` | zephyr-drivers-referencia/adc_mcp320x_referencia_spi/adc_mcp320x.c:246-270 | The thread's part of it: for every request whose cells were paid for and every sequence of callback decisions, all writes are within the buffer and it ends up holding the rows of the committed samplings in order. |
| `Acquisition.CommittedExactly` | zephyr-drivers-referencia/adc_mcp320x_referencia_spi/adc_mcp320x.c:167-175 | Over the callback's decisions: no sampling that stays was to be repeated, and every other one up to the last that stays was; each but the last let the session go on; the last finished it or was number 1 + extra. |
| `Acquisition.SessionLength` | zephyr-drivers-referencia/adc_mcp320x_referencia_spi/adc_mcp320x.c:95-98 | The cells written are the channel count times the committed samplings, never more than the size that was checked. |
| `Acquisition.CellOf` | zephyr-drivers-referencia/adc_mcp320x_referencia_spi/adc_mcp320x.c:249-267 | Cell (j, i) holds the last reading of the i-th channel in sampling j. |
| `Acquisition.AscendingIncreases` | zephyr-drivers-referencia/adc_mcp320x_referencia_spi/adc_mcp320x.c:249-250 | The channels of a mask come in strictly ascending order. |

## Left out

- SX12xx, RYLR, Identity, Registration, Telemetry: modelled on values, because several tasks or handlers interleave in them; update in place of the static structures is not shown.
- Ota.Step: a chunk is counted, not stored; the bytes are in `FwDownload`. A version or message text contains no zero byte.
- OtaClient.Firmware.OtaTask: `esp_ota_end` and `esp_ota_set_boot_partition` share one outcome, and the read results are given as a finite sequence.
- FwClient.Client.HandleFwChunkData: progress telemetry, topics of the requests and the log are not modelled; the request numbers are. Request and chunk numbers do not wrap.
- Modem: RSSI and SNR outputs, the transmit-configuration check and the stored transmit configuration, which only feeds the air-time estimate.
- Rylr: command texts, message contents and `handler_error`.
- Acquisition: a channel mask is the set of its bit positions; SPI errors and the choice of single-ended or differential inputs are not modelled.
- SensorHub: the sensors' own set-up and attribute calls; bus errors while fetching. `IIS2ICLX_SHUB_MAX_NUM_SLVS` comes from a header that is not part of this model; it is 2, the number of triples the configuration buffer holds.
- JsonExtract.JsonExtractString: for keys longer than 35 bytes the source would compare past its 40-byte pattern, which has no defined result; no caller has one.
- Rn2483.Driver.ReadLine: after a timeout the bytes of a late line are left to the next read; realignment after that is not claimed. The start-up drain and version query are left out.
- SasToken.BuildSasToken: the expiry is taken not to overflow `long`, which is 32 bits on the ESP32 (until January 2038).
- DirectMethod: payload texts of the replies and the reboot itself.
- Registration: parsing of the status code and of the reply body.
- Device-twin reporting, RPC of the ThingsBoard clients, Wi-Fi, TLS, MQTT and SNTP: event sources and sinks only.
- `esp-idf-ota`, `lwm2m`, `smp_svr`, `mongoose-os-demo-c`, the MCP3221 drivers and the `sx126x`/`sx127x` register layers: weaker versions of the same claims, wrappers, or register plumbing.
