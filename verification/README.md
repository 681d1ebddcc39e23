# Agenda de tareas — a Dafny model

This project models the core of a small single-page task agenda written in
JavaScript. The page keeps a list of school tasks (title, description, due
date as a `YYYY-MM-DD` string) and sorts each task by its due date into
today, tomorrow, the day after, overdue, or later. It shows browser
notifications three times a day and staggers in-page alerts for near
tasks. A chatbot sends the task list to the Groq chat API and renders the
answer with a tiny markup rewrite. The Groq API key comes from a prompt
or from the browser's storage.

The model has one Dafny module per concern:

| module | file | what it holds |
|---|---|---|
| `Wrappers` | wrappers.dfy | `Option`, and the page's truthiness test for a text |
| `Text` | text.dfy | the JavaScript string built-ins the page relies on: `String(n)`, `padStart`, `trim` with the ECMAScript whitespace set, `<` on strings, `startsWith`, `includes`, `join` |
| `Calendar` | calendar.dfy | proleptic Gregorian dates, the day rollover of `setDate(getDate() + n)`, and the `YYYY-MM-DD` strings of today, tomorrow and the day after |
| `Tasks` | tasks.dfy | the task record and the page's mutable task list (`class TaskList`): load, add, delete with `splice`'s index rules, edit |
| `Classify` | classify.dfy | the five-way date test shared by the card colours and the notification pass, and the single-pass categorisation loop |
| `Schedule` | schedule.dfy | the next-slot search over 08:00, 12:00 and 17:00, the two-hour throttle, and the staggered in-page alerts |
| `Notify` | notify.dfy | the notification payloads and the notification manager (`class Gestor`): permission, one verification pass, the timer chain, the visibility catch-up |
| `Config` | config.dfy | the API-key configuration (`class ConfigGlobal`): the retrying prompt, loading from storage, the `tieneAPIKey` test |
| `Chatbot` | chatbot.dfy | the chatbot (`class ChatbotTareas`): the key test, the prompt it builds, the HTTP outcome and error messages, the markup rewrite and the answer panel |

Design choices that shape the model:

- **Clock readings are inputs.** Each `new Date()` the page reads becomes a parameter: a date, an hour or milliseconds since midnight. The date strings the page compares are grouped in `Classify.Fechas`.
- **Dates are strings, as in the page.** A task's date is a string and is compared as a string. `Calendar.FormatOrder` and `Classify.ClassifyByDate` prove that, for four-digit years, comparing the strings is the same as comparing the dates.
- **Visible effects are sequences.** A shown notification is appended to `Gestor.enviadas`. A pending timer is appended to `Gestor.temporizadores`. A rendered chatbot panel is appended to `ChatbotTareas.mostradas`.
- **Prompts and the network are inputs.** What the user types into a prompt is a parameter, `None` when the prompt is cancelled. The HTTP status and answer body of a Groq call are parameters too.

Two quirks of the source are proved rather than corrected, because each
follows from code whose behaviour the rest of the page depends on:

- **The two key tests differ.** The chatbot accepts a key of 20 or more characters (chatbot.js:22). `tieneAPIKey` demands more than 20 (config.js:107). A 20-character key other than the placeholder `TU_GROQ_API_KEY_AQUI` passes the first and fails the second (`Chatbot.UmbralesDeClave`).
- **The key is validated before trimming.** `configurarGroqAPI` checks the untrimmed answer (config.js:61) but stores the trimmed one (config.js:63-64). So `"gsk_"` followed by 17 spaces is accepted and stored as `"gsk_"` (`Config.AceptadaCorta`). An accepted answer with no surrounding whitespace is stored unchanged and passes `tieneAPIKey` (`Config.TieneTrasConfigurar`).

## Model

| member | source | states |
|---|---|---|
| Text.NatToString | funcionalidad1.js:37-38 | `String(n)` of a natural is a non-empty run of decimal digits, with two or more digits exactly when n is at least 10 |
| Text.DigitsRoundTrip | funcionalidad1.js:37-38 | reading the decimal text of n back gives n |
| Text.NatToStringInjective | funcionalidad1.js:37-38 | distinct numbers have distinct decimal texts |
| Text.PadStart | funcionalidad1.js:37-38 | `padStart` yields length max(len, width), ends with the original text, and is preceded only by the fill character |
| Text.Pad2IsTwoDigits | funcionalidad1.js:37-38 | padding `String(n)` to width 2 with '0' gives the two-digit form of any n below 100 |
| Text.TwoDigitsOrder | funcionalidad1.js:85 | two-digit forms compare as strings exactly as their numbers compare, and are equal only for equal numbers |
| Text.StrLessConcat | funcionalidad1.js:85 | string `<` on equal-length prefixes is lexicographic: prefix first, then the rest |
| Text.StrLessIrreflexive | funcionalidad1.js:85 | no string is `<` itself |
| Text.StrLess | funcionalidad1.js:85 | JavaScript `<` on strings, compared character by character with a proper prefix first; its properties are `Text.StrLessConcat`, `Text.StrLessIrreflexive` and `Calendar.FormatOrder` |
| Text.TrimStartSpec | funcionalidad1.js:104 | the left trim is a suffix of the input, everything dropped is whitespace, and it does not start with whitespace |
| Text.TrimEndSpec | funcionalidad1.js:104 | the right trim is a prefix of the input, everything dropped is whitespace, and it does not end with whitespace |
| Text.Trim | funcionalidad1.js:104-105 | `String.prototype.trim`; its meaning is stated by `Text.TrimSpec`, `Text.TrimIdempotent` and `Text.TrimEmpty` |
| Text.TrimSpec | funcionalidad1.js:104-105 | `trim()` returns the slice s[i..j] with only whitespace outside it and non-whitespace at both of its ends |
| Text.TrimIdempotent | chatbot.js:128 | trimming twice is trimming once |
| Text.TrimEmpty | config.js:59 | the trim is empty exactly when every character is whitespace |
| Text.FilledTrimmed | funcionalidad1.js:104-108 | a field or answer that exists and is not blank after trimming; used by `Tasks.TaskList.AgregarTarea` and by `Config.Decision` (config.js:59) |
| Calendar.DaysInMonth | funcionalidad1.js:45 | months have 28 to 31 days, and 29 exactly for February of a leap year |
| Calendar.NextDay | funcionalidad1.js:45 | the rollover of `setDate(getDate() + 1)` gives a valid date strictly later |
| Calendar.NextDayIsSuccessor | funcionalidad1.js:45 | no valid date lies strictly between a date and its next day |
| Calendar.AddDays | funcionalidad1.js:55 | adding n days keeps the date valid and moves it strictly forward when n > 0 |
| Calendar.Format | funcionalidad1.js:34-39 | `${año}-${mes}-${dia}` with month and day padded; its meaning is stated by `Calendar.FormatFourDigit`, `Calendar.FormatInjective` and `Calendar.FormatOrder` |
| Calendar.FechaHoyString | funcionalidad1.js:34-40 | today's date string; `Calendar.FechasSiguientes` relates it to the other two |
| Calendar.FechaMananaString | funcionalidad1.js:43-50 | tomorrow's date string, the format of `NextDay` by `Calendar.FechasSiguientes` |
| Calendar.FechaPasadoMananaString | funcionalidad1.js:53-60 | the day after tomorrow's date string, the format of the second `NextDay` by `Calendar.FechasSiguientes` |
| Calendar.FechasSiguientes | funcionalidad1.js:34-60 | tomorrow is the next day, the day after is the next day twice, and the three date strings are pairwise distinct |
| Calendar.FormatFourDigit | funcionalidad1.js:34-39 | for a four-digit year the date string has length 10 with dashes at positions 4 and 7 |
| Calendar.FormatLongYear | funcionalidad1.js:34-39 | a year of five or more digits gives a string of 11 or more characters |
| Calendar.FormatInjective | funcionalidad1.js:34-39 | distinct valid dates have distinct date strings |
| Calendar.FormatOrder | funcionalidad1.js:85 | for four-digit years, string `<` on the date strings holds exactly when the first date is earlier, and string equality exactly when the dates are equal |
| Tasks.SpliceStart | funcionalidad1.js:133 | `splice`'s start index: counted from the end when negative, clamped to 0 and to the length |
| Tasks.RemoveAt | funcionalidad1.js:133 | `splice(k, 1)` within bounds removes exactly element k and keeps the order of the rest; beyond the end it changes nothing |
| Tasks.RemoveAtMultiset | funcionalidad1.js:133 | the removal takes exactly one copy of the removed task out of the list's multiset |
| Tasks.TaskList.constructor | funcionalidad1.js:5-12 | the list is the stored list when one loads, else empty |
| Tasks.TaskList.AgregarTarea | funcionalidad1.js:103-113 | a task is appended, with trimmed title and description, exactly when the trimmed title, trimmed description and date are all non-empty; otherwise the list is unchanged |
| Tasks.TaskList.EliminarTarea | funcionalidad1.js:130-138 | when confirmed the list loses the element at `splice`'s start index; otherwise it is unchanged |
| Tasks.TaskList.EditarTarea | funcionalidad1.js:141-155 | an existing index with three non-empty answers replaces that task and nothing else; any other case leaves the list unchanged |
| Classify.CardClassAgrees | funcionalidad1.js:82-85 | the card's CSS class is the name of the date bucket the notification pass uses, and the name determines the bucket |
| Classify.Classify | funcionalidad1.js:359-362 | the first-match chain of `categorizarTareas`; `Classify.ClassifyByDate` states what each bucket means for a real date |
| Classify.CardClass | funcionalidad1.js:82-85 | the first-match chain that picks a card's CSS class; `Classify.CardClassAgrees` ties it to `Classify.Classify` |
| Classify.ClassifyByDate | funcionalidad1.js:359-362 | on real date strings the string tests sort a date into today, tomorrow, the day after, overdue, or later exactly as calendar order does |
| Classify.Keep | funcionalidad1.js:489-491 | `filter` keeps only elements of the input that pass the test, and never more of them |
| Classify.KeepAppend | funcionalidad1.js:489-491 | filtering distributes over concatenation |
| Classify.KeepCount | funcionalidad1.js:489-491 | filtering keeps every copy of a passing task and no copy of a failing one |
| Classify.KeepAgree | funcionalidad1.js:489-491 | two tests that agree on every element filter the same list |
| Classify.CategorizarTareas | funcionalidad1.js:355-366 | the single pass over the tasks fills each bucket with exactly the tasks, in order, whose date falls in that bucket |
| Classify.SelectAppend | funcionalidad1.js:358-363 | a bucket of a concatenation is the concatenation of the buckets |
| Classify.SelectCount | funcionalidad1.js:358-363 | a bucket holds every copy of each task classified into it and none of the others |
| Classify.SelectPartition | funcionalidad1.js:358-363 | the five buckets, with the unkept "later" one included, together account for every task exactly once |
| Schedule.ProximoTimeout | funcionalidad1.js:273-302 | the delay is positive and lands on the earliest of today's 08:00, 12:00 and 17:00 or tomorrow's 08:00 that is after now (`Schedule.AlProximoHorario`) |
| Schedule.DebeVerificar | funcionalidad1.js:326-328 | the two-hour throttle; `Notify.Gestor.AlCambiarVisibilidad` states its effect |
| Schedule.VerificarTareasCercanas | funcionalidad1.js:485-566 | one alert per non-empty list, overdue then today then tomorrow, the k-th after 500 + 3000·k ms, each listing exactly its filter's tasks |
| Schedule.AlertasComoBuckets | funcionalidad1.js:489-491 | when tomorrow's and the day after's strings do not sort before today's, the in-page today and overdue lists equal the notification buckets; `Schedule.AlertasDeFecha` shows that the strings of every real date from 1000-01-01 to 9999-12-29 meet this condition |
| Schedule.AlertaMananaComoBucket | funcionalidad1.js:490 | when tomorrow's string differs from today's, the in-page tomorrow list equals the notification bucket |
| Schedule.FechasEnOrden | funcionalidad1.js:34-60 | for a real date whose day after tomorrow still has a four-digit year, tomorrow's and the day after's strings do not sort before today's, and tomorrow's differs from today's |
| Schedule.FechasFueraDeOrden | funcionalidad1.js:491 | on 9999-12-31 tomorrow's string sorts before today's, so the year bound of `Schedule.FechasEnOrden` is needed |
| Schedule.AlertasDeFecha | funcionalidad1.js:489-491 | for the strings of such a real date, the in-page today, overdue and tomorrow lists equal the notification buckets |
| Notify.IconoDe | funcionalidad1.js:443 | the icon key is the type when the table has it, else `hoy` |
| Notify.ConstruirFallback | funcionalidad1.js:424-446 | the tag is `tareas-` followed by the type; an unknown type gets today's icon and the default vibration |
| Notify.Construir | funcionalidad1.js:441-446 | the options `enviarNotificacion` builds; `Notify.ConstruirFallback` states the tag and the fallbacks |
| Notify.VibracionDe | funcionalidad1.js:434-446 | `vibraciones[tipo] \|\| [200, 100, 200]`; `Notify.ConstruirFallback` states the fallback |
| Notify.TagsDistintos | funcionalidad1.js:444 | the four notification types have four distinct tags |
| Notify.Aviso | funcionalidad1.js:378-420 | each pass notification carries its type's tag and icon, and asks for interaction exactly for overdue and today |
| Notify.CuerpoAnunciaCuenta | funcionalidad1.js:378-420 | the overdue body, and every plural body, starts with the number of tasks in the bucket |
| Notify.CuerpoNombraTarea | funcionalidad1.js:378-420 | a single-task body names that task in quotes; the overdue body names the first task, adding ` y más...` when there are more |
| Notify.CuerpoVencidas | funcionalidad1.js:378-385 | the overdue body; `Notify.CuerpoAnunciaCuenta` and `Notify.CuerpoNombraTarea` state its count and its named task |
| Notify.CuerpoHoy | funcionalidad1.js:388-396 | today's body, stated by `Notify.CuerpoAnunciaCuenta` and `Notify.CuerpoNombraTarea` |
| Notify.CuerpoManana | funcionalidad1.js:399-407 | tomorrow's body, stated by the same two lemmas |
| Notify.CuerpoPasadoManana | funcionalidad1.js:410-419 | the day-after body, stated by the same two lemmas |
| Notify.BucketsDe | funcionalidad1.js:355-368 | each notification type reads exactly its date bucket |
| Notify.AvisosSpec | funcionalidad1.js:378-420 | a pass shows at most four notifications in type order, one per non-empty bucket, the day-after one only at hour 8 |
| Notify.PaseSpec | funcionalidad1.js:343-421 | without permission a pass shows nothing; with it, a type is shown exactly when its bucket is non-empty (day after: only at hour 8), in order, with the right tags and interaction flags |
| Notify.Pase | funcionalidad1.js:343-421 | the notifications of one pass; `Notify.PaseSpec` states which are shown, in what order, with which tags |
| Notify.Gestor.constructor | funcionalidad1.js:159-162 | permission starts refused; nothing shown, no timer, no catch-up yet |
| Notify.Gestor.PedirPermisos | funcionalidad1.js:194-230 | unsupported or denied: refused, flag unchanged; already granted: granted; asked: the flag and the result are whether the answer granted it |
| Notify.Gestor.EnviarNotificacion | funcionalidad1.js:424-466 | with permission exactly the built notification is shown; without it nothing is |
| Notify.Gestor.VerificarYNotificar | funcionalidad1.js:343-421 | the notifications shown are exactly the pass specified by `Pase` |
| Notify.Gestor.ProgramarProximaVerificacion | funcionalidad1.js:273-315 | exactly one timer is added, with a positive delay landing on the earliest check slot still ahead (`Schedule.AlProximoHorario`) |
| Notify.Gestor.ProgramarVerificacionPeriodica | funcionalidad1.js:269-321 | one timer is added after the existing ones, landing on the earliest slot still ahead, and the catch-up time is the stored one, or 0 |
| Notify.Gestor.AlDispararTemporizador | funcionalidad1.js:308-314 | a fired timer runs one pass and is replaced by exactly one new timer on the earliest slot still ahead; the other timers are kept in order |
| Notify.Gestor.AlCambiarVisibilidad | funcionalidad1.js:323-337 | when the page becomes visible more than two hours after the last catch-up, one pass runs and the time is recorded; otherwise nothing changes |
| Config.DecisionConfigurada | config.js:51-88 | the retrying prompt configures a key exactly when some answer is the first acceptable one, and the stored key is that answer trimmed, starting with `gsk_` |
| Config.Decision | config.js:51-88 | the outcome of the retrying prompt; `Config.DecisionConfigurada`, `Config.DecisionPrimera` and `Config.DecisionEn` state it |
| Config.Aceptable | config.js:61 | the format test on the untrimmed answer; `Config.AceptadaRecortada` and `Config.AceptadaCorta` state what survives trimming |
| Config.DecisionPrimera | config.js:59-79 | when every earlier answer was given and rejected, the first acceptable answer decides the key, stored trimmed |
| Config.DecisionEn | config.js:76-79 | answers that were given and rejected only re-prompt: the outcome is decided by the answers after them |
| Config.DecisionIndice | config.js:59-79 | a configured outcome comes from a first acceptable answer |
| Config.AceptadaRecortada | config.js:61-64 | an accepted key still starts with `gsk_` after trimming |
| Config.AceptadaCorta | config.js:61-64 | `gsk_` plus 17 or more spaces is accepted yet stored as `gsk_`, which then fails `tieneAPIKey` |
| Config.TieneTrasConfigurar | config.js:61-64 | an accepted answer without surrounding whitespace is stored as is and passes `tieneAPIKey` |
| Config.ConfigGlobal.constructor | config.js:6-46 | the object literal, before `cargarAPIKey` runs at config.js:111-113: no key is current yet; the storage and the message table are the ones given |
| Config.ConfigGlobal.ConfigurarGroqAPI | config.js:51-88 | the outcome is the decision on the answers; a configured key is both stored and made current, and a cancel changes neither |
| Config.ConfigGlobal.CargarAPIKey | config.js:93-101 | returns whether storage held a non-empty key, and then that key becomes current; otherwise the current key stays |
| Config.ConfigGlobal.TieneAPIKey | config.js:106-108 | a current key of more than 20 characters; `Config.TieneTrasConfigurar` and `Chatbot.UmbralesDeClave` relate it to the other tests |
| Chatbot.UmbralesDeClave | chatbot.js:22 | every key passing `tieneAPIKey` passes the chatbot's test; the only keys passing the chatbot's test but not `tieneAPIKey` have exactly 20 characters |
| Chatbot.ClaveUtilizable | chatbot.js:22 | the chatbot's key test; `Chatbot.UmbralesDeClave` compares it with `tieneAPIKey` |
| Chatbot.ReplaceNewlines | chatbot.js:203 | after `replace(/\n/g, '<br>')` no newline is left, and text without a newline is unchanged |
| Chatbot.ReplaceNewlinesConcat | chatbot.js:203 | the newline rewrite distributes over concatenation |
| Chatbot.FindClose | chatbot.js:204-205 | a found closing position really holds the delimiter |
| Chatbot.FindCloseFirst | chatbot.js:204-205 | the found closing position is the first one, with no line terminator before it (the lazy `.*?`) |
| Chatbot.FindCloseAbsent | chatbot.js:204-205 | when none is found, no delimiter starts before the first line terminator |
| Chatbot.ReplaceDelimPlain | chatbot.js:204-205 | text without the delimiter's first character is unchanged by the rewrite |
| Chatbot.ReplaceDelimPlainPrefix | chatbot.js:204-205 | a prefix free of the delimiter's first character passes through the rewrite unchanged |
| Chatbot.ReplaceDelimKeepsOut | chatbot.js:202-205 | a character absent from the text and from both tags is absent from the rewrite |
| Chatbot.ReplaceDelim | chatbot.js:204-205 | one global lazy-delimiter replace; stated by `Chatbot.FindCloseFirst`, `Chatbot.FindCloseAbsent`, `Chatbot.PairPass` and `Chatbot.ReplaceDelimPlain` |
| Chatbot.Render | chatbot.js:202-205 | the three replaces in order; stated by `Chatbot.RenderPlain`, `Chatbot.RenderBold`, `Chatbot.RenderEm`, `Chatbot.RenderLoneStar` and `Chatbot.RenderSinSaltos` |
| Chatbot.PairPass | chatbot.js:204-205 | a delimited run on one line becomes the opening tag, the run, and the closing tag |
| Chatbot.RenderPlain | chatbot.js:202-205 | plain text (no star, no line terminator) is rendered unchanged |
| Chatbot.RenderBold | chatbot.js:204 | `**x**` renders as `<strong>x</strong>` |
| Chatbot.RenderEm | chatbot.js:205 | `*x*` renders as `<em>x</em>` |
| Chatbot.RenderLoneStar | chatbot.js:204-205 | an unmatched star is left as it is |
| Chatbot.RenderSinSaltos | chatbot.js:202-205 | the rendered answer has no newline left |
| Chatbot.LlamarGroqAPI | chatbot.js:178-185 | the call fails exactly on a status outside 200–299; a present answer is non-empty and already trimmed |
| Chatbot.MensajesDeError | chatbot.js:178-197 | 429 and 401 show their fixed explanations, any other failure shows `Error <status>`, and an empty answer shows `Respuesta vacía`, each behind `❌ Error: ` |
| Chatbot.ManejarError | chatbot.js:188-198 | the error text shown; `Chatbot.MensajesDeError` states it for every failure |
| Chatbot.ConexionSi | chatbot.js:219-227 | the connection test passes exactly on a 2xx answer whose trimmed content is `OK` |
| Chatbot.VerificarConexion | chatbot.js:219-227 | the connection test; `Chatbot.ConexionSi` states when it passes |
| Chatbot.EstadoFechaRoundTrip | chatbot.js:111-113 | the due-date label of a day difference can be read back to that difference |
| Chatbot.LeerVencida | chatbot.js:111 | an overdue label reads back as the negated day count |
| Chatbot.LeerFutura | chatbot.js:113 | a future label reads back as its day count |
| Chatbot.EstadoFechaInjective | chatbot.js:111-113 | distinct day differences give distinct labels |
| Chatbot.EstadoFecha | chatbot.js:111-113 | the due-date label; `Chatbot.EstadoFechaRoundTrip` and `Chatbot.EstadoFechaInjective` state that it determines the day difference |
| Chatbot.Campos | chatbot.js:114 | the fields of a task line start right after the index, with the dot |
| Chatbot.Entradas | chatbot.js:108-115 | one line per task |
| Chatbot.EntradasNumeradas | chatbot.js:108-115 | the i-th line starts with the number i + 1 and ends with the readable label of its day difference |
| Chatbot.EntradaNumerada | chatbot.js:114 | a task line opens with its number and closes with its day-difference label |
| Chatbot.Entrada | chatbot.js:114 | one task line; `Chatbot.EntradaNumerada` states its shape |
| Chatbot.ContextoTareas | chatbot.js:108 | the fixed no-tasks text appears exactly when the list is empty |
| Chatbot.PromptTerminaEnConsulta | chatbot.js:117-121 | the prompt ends with the user's question |
| Chatbot.Prompt | chatbot.js:117-121 | the text sent to the API; `Chatbot.PromptTerminaEnConsulta` states that it ends with the question |
| Chatbot.Html | chatbot.js:206-211 | the answer panel's markup, with the class of the kind, ` active` while loading, the kind's icon and the rendered message |
| Chatbot.Mostrar | chatbot.js:200-211 | one call of `mostrarRespuesta`; the `Chatbot.ChatbotTareas` methods state which panels are shown |
| Chatbot.ChatbotTareas.constructor | chatbot.js:7-14 | not processing, button enabled, empty input; when the page elements exist (chatbot.js:39-47) the configured key is copied, the chatbot is configured exactly when the key is usable, and otherwise the missing-key warning is shown; without the elements or the config: no key, not configured, nothing shown |
| Chatbot.ChatbotTareas.ValidarConfiguracion | chatbot.js:16-29 | without a config object the check fails; otherwise the key is copied, it passes exactly when usable, and a failure shows the missing-key warning |
| Chatbot.ChatbotTareas.IniciarConsulta | chatbot.js:124-141 | a busy chatbot ignores the query; an empty trimmed query shows a warning and releases the lock; with the configuration loaded, a missing key shows a warning and releases the lock, and otherwise the trimmed query is sent with the loading panel shown and the button disabled; without the configuration a non-empty query keeps the lock held and shows nothing |
| Chatbot.ChatbotTareas.TerminarConsulta | chatbot.js:143-157 | a non-empty answer is shown as success and clears the input; anything else shows the error text; the lock and the button are always released |

## Left out

- **The DOM and dialogs.** Rendering task cards, forms, SweetAlert popups, `alert`, `confirm` and `prompt` are not modelled as UI. Their answers are parameters, and a card's CSS class is a function.
- **Storage.** `localStorage` and JSON are not modelled. A stored task list or key is an `Option`, and a JSON parse failure is `None`. Saving after each change (`guardarTareas`) is not modelled.
- **The clock.** Each `new Date()` is a separate reading, so the model takes dates and times of day as parameters. Daylight-saving jumps are not modelled: a day is always 24 hours.
- **`toISOString` and `toLocaleDateString`.** The prompt's date and weekday, and the day difference computed with `Math.ceil` (chatbot.js:104-110), are parameters.
- **Timer delays.** The 1000 ms delay before the visibility catch-up and the 500 ms delay before the missing-key warning are modelled as immediate effects. The staggered delays of the in-page alerts are stated as values (`Schedule.VerificarTareasCercanas`). No interleaving of timers is modelled.
- **Alerts after adding a task.** The call to `verificarTareasCercanas` that `agregarTarea` schedules 500 ms after a successful add (funcionalidad1.js:126) is not modelled: `Tasks.TaskList.AgregarTarea` changes only the list, and the alerts are `Schedule.VerificarTareasCercanas` run on the new list.
- **The second visibility listener.** The unthrottled listener at funcionalidad1.js:604-610 is not modelled.
- **The Notifications API.** The welcome notification, the manual instructions popup, `probarNotificacion` and service-worker registration are not modelled. Neither is a `new Notification` that throws.
- **Notification fields.** Icons are modelled as keys of the icon table; the SVG data URLs are not. The `timestamp` and `actions` fields are not modelled.
- **Repeated notifications.** Nothing records what was already shown, so a later pass shows its buckets again, as in the source.
- **Network and input plumbing.** `fetch`, the request body and `response.json()` are not modelled. Neither are the debounce of the chatbot's listeners, the welcome panel and `window.getTareas`. The HTTP status and the answer's content are parameters.
- **String units.** Strings are sequences of Unicode characters. JavaScript's `<` and `length` count UTF-16 code units, which differs only outside the Basic Multilingual Plane.
- **Unused helpers.** `formatearFecha` is not modelled because the page never calls it. `estrellas.js` (decoration) and `sw.js` (service worker) are not part of this model.
- Config.ConfigGlobal.ConfigurarGroqAPI: the answers are a finite list, so a user who keeps answering invalid keys forever is modelled as running out of answers (`SinRespuestas`). The success and cancel panels shown through the chatbot, and the alert-and-reload path, are not modelled.
- Chatbot.ChatbotTareas.IniciarConsulta: takes the configuration object as a parameter, `null` when it is undefined. The `ReferenceError` that chatbot.js:135 or 140 then raises is modelled only by its effect: the method returns with the lock held and nothing shown, so every later query returns at chatbot.js:125. The uncaught exception itself is not modelled.
- Chatbot.Html: covers the five panel kinds the page uses. An unknown kind, which would show `undefined` as its icon, and the template's layout whitespace are not modelled.
- Notify.Gestor.ProgramarVerificacionPeriodica: the stored catch-up time is modelled as a number. The page reads it as a string and relies on the subtraction converting it.
- Notify.Gestor.AlCambiarVisibilidad: runs the pass when the page becomes visible, not 1000 ms later.
