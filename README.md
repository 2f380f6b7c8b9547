# ESGI Rust practice — verified model of the network and file exercises

This project models, in Dafny, the core of five exercises of the repository
and proves properties of that model:

- **tp8 — remote calculator protocol** (`CalcProtocol`, `CalcServer`, `CalcClient`):
  the message envelope and its constructors, the frame format (a 4-byte
  big-endian length, then the JSON text), the server's session table and
  counters, the per-connection handshake and its message loop (draining
  every complete frame of the buffer), and the client's command parser and
  response reader.
- **tp9 — WebSocket chat** (`ChatMessage`, `ChatServer`, `ChatClient`):
  the chat envelope, the user-name rule, the handshake that admits a user,
  the reaction to every frame kind, the broadcast log, and the client's
  command parsing and filters.
- **tp7 — a small DNS server and client** (`Dns`, `DnsServer`, `DnsClient`):
  the header, question and answer records and their wire form as RFC 1035
  section 4.1 lays it out (without name compression), the length-prefixed
  label encoding of names, the decoder and its error cases, the server's
  answer for every question against its fixed table, and the client's query
  and the reading of the first IPv4 address of a response.
- **Log writer and reader** (`LogWriter`, `LogParser`): the technical and the
  readable line of an entry, the demonstration date, the parser of technical
  lines, the reader keeping the lines that parse, the filter by level and the
  per-level counts.
- **Bank accounts** (`Bank`): withdrawal and deposit with their guards,
  renaming into a new account, and the menu's choice of an account by its
  displayed number.

Shared helper modules: `Wrappers` (Option and Result), `Bytes` (unsigned
integers and their big-endian bytes), `Utf8` (encoding and decoding with its
round trip), `Text` (the `str` operations used: prefixes, `find`, Rust's
`trim` with its Unicode whitespace set, `split`, `join`, decimal formatting
and `parse` for unsigned integers), `Sums` (the sum of a map's values) and
`Externals` (what the programs take from libraries: a JSON codec given as a
pair of functions, UUIDs, timestamps, socket addresses).

Sockets, clocks and random draws are parameters: a connection is the
sequence of its reads (bytes, a read error or a timeout), the UUID and time
of the k-th message a connection sends are `uuid(k)` and `horloge(k)`, and
every write is appended to the connection's log of sent messages.

What a tp8 connection sends is stated as folds over the messages it
handles: `Repondre` is the reply to one message given the connection's
position in its log and the server's counters (`Releve`: active sessions,
connections, calculations) at that moment; `Replis` folds it over the
messages one drain handles, `EnvoisLecture` over one read (a timeout sends a
ping), and `Sortie` over the whole run of reads, while `Apres` folds the
counters. The folds take the reply function as a parameter, and a
connection holds it as the ghost constant `repondre`, which its constructor
ties to `Repondre` (`Repond(repondre, env)`). For the chat server,
`Diffusions` folds `Reaction` over the reads of a connection's loop.

## Model

| member | source | states |
|---|---|---|
| CalcProtocol.NouvelleConnexion | tp8_protocole_personnalise/src/lib.rs:78-90 | a `Connexion` message with the given id and time, whose only optional field is the session id |
| CalcProtocol.NouvelleConnexionOk | tp8_protocole_personnalise/src/lib.rs:92-104 | a `ConnexionOk` whose only optional field is the welcome text |
| CalcProtocol.NouvelleRequeteCalcul | tp8_protocole_personnalise/src/lib.rs:106-118 | a `Calcul` carrying exactly the session id and the request |
| CalcProtocol.NouveauResultatCalcul | tp8_protocole_personnalise/src/lib.rs:120-132 | a `ResultatCalcul` reusing the request's id, with the result and the details exactly when given |
| CalcProtocol.NouvelleDemandeInfoServeur | tp8_protocole_personnalise/src/lib.rs:134-146 | an `InfoServeur` carrying only the session id |
| CalcProtocol.NouvelleReponseInfoServeur | tp8_protocole_personnalise/src/lib.rs:148-160 | a `ReponseInfoServeur` carrying only the info document |
| CalcProtocol.NouvelleDemandeStatistiques | tp8_protocole_personnalise/src/lib.rs:162-174 | a `Statistiques` carrying only the session id |
| CalcProtocol.NouvelleReponseStatistiques | tp8_protocole_personnalise/src/lib.rs:176-188 | a `ReponseStatistiques` carrying only the statistics document |
| CalcProtocol.NouvelleErreur | tp8_protocole_personnalise/src/lib.rs:190-206 | an `Erreur` whose data is an object with exactly the keys `code` and `description`, holding the given texts |
| CalcProtocol.NouveauPing | tp8_protocole_personnalise/src/lib.rs:208-220 | a `Ping` with no optional field |
| CalcProtocol.NouveauPong | tp8_protocole_personnalise/src/lib.rs:222-234 | a `Pong` with an id of its own whose data is the ping's id as text |
| CalcProtocol.NouvelleDeconnexion | tp8_protocole_personnalise/src/lib.rs:236-248 | a `Deconnexion` carrying only the session id |
| CalcProtocol.VersBytes | tp8_protocole_personnalise/src/lib.rs:261-271 | a frame is four header bytes followed by the UTF-8 bytes of the JSON text |
| CalcProtocol.TailleDeclareeVersBytes | tp8_protocole_personnalise/src/lib.rs:263-267 | the header declares the JSON byte count modulo 2^32 (the `as u32` cast) |
| CalcProtocol.DepuisBytes | tp8_protocole_personnalise/src/lib.rs:274-292 | "size missing" exactly when fewer than 4 bytes, "message missing" exactly when the declared body is not all there, and a success consumes 4 plus the declared length |
| CalcProtocol.DepuisBytesContenu | tp8_protocole_personnalise/src/lib.rs:286-291 | a decoded frame's body is the UTF-8 form of a JSON text the codec reads as the message |
| CalcProtocol.DepuisVersBytes | tp8_protocole_personnalise/src/lib.rs:261-292 | decoding an encoded message, whatever follows it, gives the message and the frame's length (codec round trip, body under 2^32 bytes) |
| CalcProtocol.DepuisBytesTexte | tp8_protocole_personnalise/src/lib.rs:274-292 | a header followed by the UTF-8 form of a text the codec reads as `m` decodes to `m` |
| CalcProtocol.DepuisBytesTronque | tp8_protocole_personnalise/src/lib.rs:275-284 | every strict prefix of a frame is reported as incomplete (size or message missing), never as malformed |
| CalcProtocol.TailleDeclareePrefixe | tp8_protocole_personnalise/src/lib.rs:280 | the declared length depends on the first four bytes only |
| CalcServer.UnCalculDePlus | tp8_protocole_personnalise/src/serveur.rs:72-73 | a session's calculation count goes up by one and its other fields stay |
| CalcServer.TableAjout | tp8_protocole_personnalise/src/serveur.rs:47-56 | adding a fresh session with no calculation keeps the table keyed by session id and keeps the per-session total |
| CalcServer.TableRetrait | tp8_protocole_personnalise/src/serveur.rs:63-68 | removing a session keeps the table valid and does not raise the per-session total |
| CalcServer.TableCalcul | tp8_protocole_personnalise/src/serveur.rs:71-76 | one more calculation for a present session raises the per-session total by one |
| CalcServer.EtatServeurCalcul.constructor | tp8_protocole_personnalise/src/serveur.rs:32-39 | no session, both counters at zero, the start time given |
| CalcServer.EtatServeurCalcul.AjouterSession | tp8_protocole_personnalise/src/serveur.rs:42-60 | an id already present is refused with the "déjà active" text and nothing changes; otherwise the session is inserted with one connection and no calculation and the connection total goes up by one |
| CalcServer.EtatServeurCalcul.SupprimerSession | tp8_protocole_personnalise/src/serveur.rs:63-68 | the session is removed (absent: no change) and both totals stay |
| CalcServer.EtatServeurCalcul.IncrementerCalculs | tp8_protocole_personnalise/src/serveur.rs:71-76 | a present session gets one more calculation and so does the total; an absent one changes nothing |
| CalcServer.InfoDe | tp8_protocole_personnalise/src/serveur.rs:79-93 | reference definition of `obtenir_info_serveur` over the open-session count; `InfoContenu` states what it holds |
| CalcServer.InfoContenu | tp8_protocole_personnalise/src/serveur.rs:79-93 | the server description holds exactly the fields `nom`, `version`, `sessions_actives`, `operations_supportees`, `protocole` and `format_message`, with `sessions_actives` the number of open sessions and the eight operations listed |
| CalcServer.StatistiquesDe | tp8_protocole_personnalise/src/serveur.rs:96-120 | reference definition of `obtenir_statistiques` over the counters; `StatistiquesContenu` states what it holds |
| CalcServer.StatistiquesContenu | tp8_protocole_personnalise/src/serveur.rs:96-120 | the statistics document holds the connection, calculation and active-session counters, and a non-negative mean that times the connection count gives the calculation count, or 0 with no connection |
| CalcServer.EtatServeurCalcul.StatistiquesCoherentes | tp8_protocole_personnalise/src/serveur.rs:79-120 | the statistics report no more active sessions than connections ever made, the same active count as the info document, and a non-negative average |
| CalcServer.FinDeconnexionCons | tp8_protocole_personnalise/src/serveur.rs:273-284 | a message other than `Deconnexion` in front of a drained run keeps "only the last one may be a disconnection" |
| CalcServer.Drain | tp8_protocole_personnalise/src/serveur.rs:273-284 | draining the buffer leaves a suffix of it, and only its last message can be a disconnection, which stops it |
| CalcServer.DrainIncomplet | tp8_protocole_personnalise/src/serveur.rs:273-283 | unless a disconnection stopped it, the drain leaves a buffer from which no frame decodes |
| CalcServer.DrainPas | tp8_protocole_personnalise/src/serveur.rs:273-283 | one step of the drain: a buffer that does not decode is kept whole; otherwise the frame's message is handled and the rest drained, except after a disconnection |
| CalcServer.DrainUn | tp8_protocole_personnalise/src/serveur.rs:274-277 | the drain step for a buffer whose first frame decodes to `m` |
| CalcServer.DrainPremier | tp8_protocole_personnalise/src/serveur.rs:274-277 | a buffer starting with an encoded frame yields that frame's message first |
| CalcServer.DrainTrames | tp8_protocole_personnalise/src/serveur.rs:269-284 | frames of non-disconnection messages followed by an incomplete tail give back all those messages, in order, and leave exactly the tail |
| CalcServer.DrainDeconnexion | tp8_protocole_personnalise/src/serveur.rs:273-284 | frames followed by a disconnection give the messages up to and including it and leave whatever follows it untouched |
| CalcServer.Reponse | tp8_protocole_personnalise/src/serveur.rs:311-384 | no reply exactly to a disconnection; a ping gets a pong carrying its id; a calculation gets a result with the request's id exactly when it succeeds, and an invalid-parameters error otherwise; info and statistics get their documents; any other kind gets an invalid-operation error |
| CalcServer.Repondre | tp8_protocole_personnalise/src/serveur.rs:305-387 | the reply to one request as a log of at most one message, the server reporting the counters `r`: `Reponse` with the info and statistics built from those counters; `RepondUn` proves one reply for every message but a disconnection |
| CalcServer.ChoixPoignee | tp8_protocole_personnalise/src/serveur.rs:183-235 | a first frame that does not decode is refused as malformed; a non-connection as not authenticated; a connection without an id, or with an id already open, as an invalid session; only a connection with a new id is accepted, under that id |
| CalcServer.MessagePoignee | tp8_protocole_personnalise/src/serveur.rs:192-235 | an accepted session is confirmed with `ConnexionOk`; a refusal sends an error with the refusal's code |
| CalcServer.Etape | tp8_protocole_personnalise/src/serveur.rs:263-298 | one read of the loop: a disconnection ends it, and only as the last message handled; a timeout handles nothing and keeps the buffer |
| CalcServer.Flux | tp8_protocole_personnalise/src/serveur.rs:261-299 | reference fold for the read loop: the messages handled over the reads, read by read as `Etape` says, until a read stops the loop, and whether it stopped on a disconnection; `FluxFin`, `FluxPas`, `FluxDe` and `FluxDeconnexion` characterise it |
| CalcServer.FluxFin | tp8_protocole_personnalise/src/serveur.rs:261-299 | over a run of reads, the session ends by disconnection exactly when the last message handled is a disconnection |
| CalcServer.FluxFinSuite | tp8_protocole_personnalise/src/serveur.rs:261-299 | when a read does not stop the loop, the rest of the run decides whether the session ends by disconnection, exactly as its last message does |
| CalcServer.FluxPas | tp8_protocole_personnalise/src/serveur.rs:261-299 | one round of the read loop: if it stops, the messages handled so far are the whole outcome; otherwise the rest of the reads continue from the left-over buffer |
| CalcServer.FluxDe | tp8_protocole_personnalise/src/serveur.rs:261-299 | the loop over the reads from position i is one step followed by the loop over the rest, unless that step stopped it |
| CalcServer.FluxDeconnexion | tp8_protocole_personnalise/src/serveur.rs:269-284 | a read holding one disconnection frame ends the loop after handling just that message |
| CalcServer.Accueil | tp8_protocole_personnalise/src/serveur.rs:176-241 | the handshake answers exactly when the first read brings bytes, and an accepted id was not open |
| CalcServer.ResteAccueil | tp8_protocole_personnalise/src/serveur.rs:180-185 | what the handshake leaves in the buffer is a suffix of the bytes read |
| CalcServer.FuiteSession | tp8_protocole_personnalise/src/serveur.rs:187-247 | a connection with a new id followed by a disconnection frame reaches the early return of line 204 (see Findings) |
| CalcServer.ApresCalculs | tp8_protocole_personnalise/src/serveur.rs:318-323 | over a run of messages, a session in the table gains exactly one calculation per successful calculation request, and no other counter moves; a session not in the table changes nothing |
| CalcServer.CalculsApres | tp8_protocole_personnalise/src/serveur.rs:318-323 | the calculation counter after a run of messages is the one before plus, for a session in the table, the number of successful calculation requests |
| CalcServer.ApresConcat | tp8_protocole_personnalise/src/serveur.rs:273-284 | the counters after two runs of messages are the counters after the first, carried through the second |
| CalcServer.ApresPas | tp8_protocole_personnalise/src/serveur.rs:273-284 | one more message moves the counters by one `Suivant` step |
| CalcServer.ReplisConcat | tp8_protocole_personnalise/src/serveur.rs:273-284 | the replies to two runs are the replies to the first, then those to the second from the log position and the counters the first left |
| CalcServer.ReplisPas | tp8_protocole_personnalise/src/serveur.rs:273-284 | the replies to one more message are the earlier replies followed by its reply on the counters they left |
| CalcServer.ReplisSuite | tp8_protocole_personnalise/src/serveur.rs:273-284 | a log holding the replies to the messages so far holds the replies to one more once its reply is appended |
| CalcServer.ReplisUn | tp8_protocole_personnalise/src/serveur.rs:277 | the replies to a single message are its reply |
| CalcServer.ReplisUnParUn | tp8_protocole_personnalise/src/serveur.rs:273-284 | when every message gets one reply, there are as many replies as messages and the i-th answers the i-th, at log position k + i, on the counters the first i left |
| CalcServer.RepondUn | tp8_protocole_personnalise/src/serveur.rs:311-384 | every message other than a disconnection gets exactly one reply |
| CalcServer.ReplisSansDeconnexion | tp8_protocole_personnalise/src/serveur.rs:273-284 | with no disconnection among the messages, the i-th message sent is `Reponse` to the i-th message, with the info and statistics documents of the counters at that point |
| CalcServer.Sortie | tp8_protocole_personnalise/src/serveur.rs:261-299 | reference fold for what the read loop sends after `deja`: each read adds `EnvoisLecture`, the counters moving as `Apres` says, until a read stops the loop; `SortieDe`, `SortiePas`, `SortieDelais` and `SortiePrefixe` characterise it |
| CalcServer.SortieDe | tp8_protocole_personnalise/src/serveur.rs:261-299 | what the loop sends from its i-th read on is that read's messages, then, unless it stopped, what it sends over the rest from the new buffer and counters |
| CalcServer.SortiePas | tp8_protocole_personnalise/src/serveur.rs:261-299 | one round of the read loop, stated for the loop that keeps its log: a stopping read ends the output there; otherwise the rest follows |
| CalcServer.SortiePrefixe | tp8_protocole_personnalise/src/serveur.rs:261-299 | the read loop never takes back a message: what was sent before it is a prefix of what has been sent after it |
| CalcServer.EnvoisClient | tp8_protocole_personnalise/src/serveur.rs:166-250 | reference definition of what `gerer_client` sends: nothing unless the first read brings bytes, else the handshake reply and, for an accepted session, `Sortie` of its reads from the counters `Ouverture` leaves |
| CalcServer.EnvoisClientDebut | tp8_protocole_personnalise/src/serveur.rs:175-238 | what was sent before is kept; nothing is sent exactly when the first read brings no bytes, and otherwise the first message sent is the handshake reply |
| CalcServer.SortieDelais | tp8_protocole_personnalise/src/serveur.rs:290-297 | n timeouts in a row send exactly n pings, the i-th with the id and clock reading of the connection's (k+i)-th message |
| CalcServer.ConnexionCalcul.constructor | tp8_protocole_personnalise/src/serveur.rs:171-173 | a connection starts with an empty buffer, nothing sent and no session, and answers requests with `Repondre` |
| CalcServer.ConnexionCalcul.TraiterMessageClient | tp8_protocole_personnalise/src/serveur.rs:305-387 | sends exactly `Reponse` for the message, computed on the counters before it, ends exactly on a disconnection, counts a calculation only when it succeeds for a present session, and so moves the counters as `Suivant` says |
| CalcServer.ConnexionCalcul.TraiterTrame | tp8_protocole_personnalise/src/serveur.rs:274-277 | handles the buffer's first frame: the buffer shrinks, the drain of the old buffer is this message then the drain of the new one, exactly the reply to it (`Repondre` at the log's current length and the current counters) is sent, and the counters move as `Suivant` says |
| CalcServer.ConnexionCalcul.TraiterTampon | tp8_protocole_personnalise/src/serveur.rs:273-284 | the inner `while` loop: the messages handled and the buffer left are those of `Drain`; what is sent is exactly `Replis` over those messages, each reply computed on the counters the messages before it left; the counters end as `Apres` of the messages, so the calculation total rises by the number of successful calculations when the session is in the table; one reply per message except the disconnection |
| CalcServer.ConnexionCalcul.TraiterLecture | tp8_protocole_personnalise/src/serveur.rs:263-298 | one read handled as `Etape` describes; what is sent is exactly `EnvoisLecture`: for a timeout one ping carrying the id and clock reading of the connection's next message, for bytes the replies to the messages drained; the counters end as `Apres` of those messages |
| CalcServer.ConnexionCalcul.BoucleMessages | tp8_protocole_personnalise/src/serveur.rs:261-299 | read after read, the loop handles the messages of `Flux`, says whether it ended by disconnection, sends exactly `Sortie` of its reads and leaves the counters as `Apres` of every message handled |
| CalcServer.ConnexionCalcul.TraiterMessages | tp8_protocole_personnalise/src/serveur.rs:253-302 | the whole loop handles the messages of `Flux`, says whether it ended by disconnection, sends exactly `Sortie` of its reads, and leaves the counters as `Apres` of every message handled, the calculation total rising by the number of successful calculations when the session is in the table |
| CalcServer.ConnexionCalcul.EnvoyerErreur | tp8_protocole_personnalise/src/serveur.rs:207-234 | appends exactly one error message with the given code and text |
| CalcServer.ConnexionCalcul.Poignee | tp8_protocole_personnalise/src/serveur.rs:176-241 | the handshake answers as `Accueil` says; nothing is sent without bytes; an accepted id is opened, one more connection is counted with the counters moving as `Ouverture` says, and the rest of the buffer is kept |
| CalcServer.ConnexionCalcul.RepondrePremier | tp8_protocole_personnalise/src/serveur.rs:183-236 | answers the first frame as `ChoixPoignee` decides; an accepted id is opened with the counters moving as `Ouverture` says; a refusal leaves the table as it was |
| CalcServer.ConnexionCalcul.OuvrirSession | tp8_protocole_personnalise/src/serveur.rs:188-213 | an id already open is refused with the table's "déjà active" text; a new one is opened and confirmed, the counters moving as `Ouverture` says |
| CalcServer.ConnexionCalcul.Servir | tp8_protocole_personnalise/src/serveur.rs:175-238 | the handshake then, for an accepted session, its read loop: it sends exactly `EnvoisClient`; an accepted id was not open before and is added to the table, the connection counter rises by one and the calculation counter by `Calculs` of the messages of `Flux`; without an accepted session the table and counters stay; the loop ends on a disconnection exactly when `Flux` says so |
| CalcServer.ConnexionCalcul.GererClient | tp8_protocole_personnalise/src/serveur.rs:166-250 | as written: the connection fails exactly when an accepted session ends by disconnection, and then its id stays in the table; in every other outcome the table is as before. It sends exactly `EnvoisClient`. The connection counter rises by one and the calculation counter by `Calculs` of the messages of `Flux` exactly when the session is accepted, and the session id is set exactly then. Without an accepted session the buffer is as the handshake left it |
| CalcServer.ConnexionCalcul.GererClientCorrige | tp8_protocole_personnalise/src/serveur.rs:166-250 | corrected: the same failure condition, and the table always ends with the keys it started with; it sends exactly `EnvoisClient`, with the same counters, session id and buffer as `GererClient` |
| CalcClient.AliasMemeCommande | tp8_protocole_personnalise/src/client.rs:177-295 | every short alias (`add`, `sub`, `mul`, `div`, `pow`, `sqrt`, `fact`, `fib`) names the same known command as its long form |
| CalcClient.MotCleSansCasse | tp8_protocole_personnalise/src/client.rs:177 | the keyword is matched without regard to ASCII case |
| CalcClient.ParserParties | tp8_protocole_personnalise/src/client.rs:171-301 | the only failure is an operand that does not parse |
| CalcClient.ParserEchec | tp8_protocole_personnalise/src/client.rs:177-286 | parsing fails exactly for a known operation with the right word count and some operand that does not parse, and then names the first such operand |
| CalcClient.ParserCommande | tp8_protocole_personnalise/src/client.rs:171-175 | a blank input gives no message, and the only failure is an invalid operand |
| CalcClient.ParserAlias | tp8_protocole_personnalise/src/client.rs:177-295 | a command typed with an alias parses as the command typed with its long name |
| CalcClient.Reponse | tp8_protocole_personnalise/src/client.rs:134-161 | the loop stops exactly on a closed connection or a read error; a received message is the first frame decoded from the buffer plus the bytes read, which keeps what follows; a buffer that does not decode is kept whole; a timeout keeps the buffer |
| CalcClient.ReponseEntiere | tp8_protocole_personnalise/src/client.rs:139-148 | a read of one whole frame yields its message and leaves what was already buffered |
| CalcClient.ReponseEnDeuxLectures | tp8_protocole_personnalise/src/client.rs:139-153 | a frame split over two reads is buffered after the first and decoded after the second |
| CalcClient.Decision | tp8_protocole_personnalise/src/client.rs:109-131 | what the stdin loop does with one line: skip a blank one, quit on `quit` in any ASCII case, else send, skip or fail as `parser_commande` says; `DecisionLigne` states these cases |
| CalcClient.DecisionLigne | tp8_protocole_personnalise/src/client.rs:109-131 | a blank line is skipped; `quit` in any case sends a disconnection and stops; otherwise the line is sent, skipped or aborts exactly as the command parser says |
| CalcClient.Tour | tp8_protocole_personnalise/src/client.rs:104-163 | one turn: only a sent request leads to a read; a disconnection or a request is sent exactly for quit and send; a parse failure aborts the loop |
| CalcClient.DerouleAvance | tp8_protocole_personnalise/src/client.rs:104-164 | the loop from turn i is that turn followed by the rest, unless it stopped or failed |
| CalcClient.DerouleFin | tp8_protocole_personnalise/src/client.rs:104-164 | with no input left the loop is still running and adds nothing |
| CalcClient.DerouleDe | tp8_protocole_personnalise/src/client.rs:104-164 | the run from turn i unfolds into turn i and the run from i + 1 |
| CalcClient.Session | tp8_protocole_personnalise/src/client.rs:100-168 | reference definition of `boucle_principale` over the lines typed: the turns `Tour` takes from an empty buffer; `SessionCons`, `SessionQuit`, `SessionReponse` and `SessionBornes` characterise it |
| CalcClient.SessionCons | tp8_protocole_personnalise/src/client.rs:101-164 | a session over `s` then more lines starts from an empty buffer with the turn for `s` |
| CalcClient.SessionQuit | tp8_protocole_personnalise/src/client.rs:118-123 | a `quit` line sends one disconnection and ends the session, whatever follows |
| CalcClient.SessionReponse | tp8_protocole_personnalise/src/client.rs:126-148 | a request answered by one whole frame records the request and the answer and goes on with the next line |
| CalcClient.DerouleBornes | tp8_protocole_personnalise/src/client.rs:104-164 | no more answers than requests and no more requests than lines |
| CalcClient.DerouleEchec | tp8_protocole_personnalise/src/client.rs:126 | a failed run failed on one of the lines' parse errors |
| CalcClient.SessionBornes | tp8_protocole_personnalise/src/client.rs:101-167 | over a whole session, answers ≤ requests ≤ lines, and a failure is always an invalid operand |
| CalcClient.Confirmation | tp8_protocole_personnalise/src/client.rs:33-68 | the connection succeeds exactly when the first read brings bytes decoding to `ConnexionOk`; a timeout, a closed socket or a read error give the timeout error; a refusal comes from an `Erreur` reply; a parse error keeps the decoder's cause |
| CalcClient.RefusSansDetail | tp8_protocole_personnalise/src/client.rs:51-53 | the server's errors carry no content, so a refusal always reads "Erreur inconnue" |
| CalcClient.ClientCalcul.constructor | tp8_protocole_personnalise/src/client.rs:45-49 | a connected client whose only sent message is its connection request |
| CalcClient.ClientCalcul.LireReponse | tp8_protocole_personnalise/src/client.rs:134-162 | records the message `Reponse` receives and returns its buffer and decision |
| CalcClient.ClientCalcul.TraiterSaisie | tp8_protocole_personnalise/src/client.rs:109-163 | performs the turn `Tour` describes: what it sends, what it receives, the buffer and the decision |
| CalcClient.ClientCalcul.BouclePrincipale | tp8_protocole_personnalise/src/client.rs:100-168 | the `loop` sends and receives exactly what `Session` describes, and the client is disconnected exactly when the loop broke (`Terminee`) |
| CalcClient.ClientCalcul.DemarrerSession | tp8_protocole_personnalise/src/client.rs:72-97 | a client not connected fails with "Non connecté" and changes nothing; otherwise it runs the main loop |
| CalcClient.Connecter | tp8_protocole_personnalise/src/client.rs:16-69 | a client exists exactly when `Confirmation` succeeds, after sending one connection request; otherwise its error |
| ChatMessage.NouveauChat | tp9_websocket/src/lib.rs:49-60 | a well-formed `Chat` with the given id, time, user and text |
| ChatMessage.MetaBinaire | tp9_websocket/src/lib.rs:62-68 | the binary metadata object: `taille` is the byte count, and `nom_fichier` is present exactly when a file name is given |
| ChatMessage.NouveauBinaire | tp9_websocket/src/lib.rs:62-79 | a well-formed `Binaire` carrying the bytes and that metadata |
| ChatMessage.NouvelleConnexion | tp9_websocket/src/lib.rs:81-92 | a well-formed `Connexion` naming the user |
| ChatMessage.NouvelleDeconnexion | tp9_websocket/src/lib.rs:94-105 | a well-formed `Deconnexion` naming the user, with the "a quitté le chat" text |
| ChatMessage.NouvelleNotification | tp9_websocket/src/lib.rs:107-118 | a well-formed `Notification` with the given text |
| ChatMessage.NouvelleDemandeUtilisateurs | tp9_websocket/src/lib.rs:120-131 | a well-formed `DemandeUtilisateurs` |
| ChatMessage.JsonNoms | tp9_websocket/src/lib.rs:139 | the list of names becomes a JSON array of the same strings in the same order |
| ChatMessage.NomsJson | tp9_websocket/src/client.rs:276 | reading an array of names back keeps its length |
| ChatMessage.NomsJsonNoms | tp9_websocket/src/client.rs:274-281 | the list the server writes reads back as the same names |
| ChatMessage.NouvelleListeUtilisateurs | tp9_websocket/src/lib.rs:133-144 | a well-formed `ListeUtilisateurs` whose metadata reads back as the list given |
| ChatMessage.NouveauPing | tp9_websocket/src/lib.rs:146-157 | a well-formed `Ping` |
| ChatMessage.NouveauPong | tp9_websocket/src/lib.rs:159-170 | a well-formed `Pong` whose metadata is the ping's id as text |
| ChatMessage.EstBinaire | tp9_websocket/src/lib.rs:181-183 | reference definition of `est_binaire`: a message goes out as binary when it is of the `Binaire` kind or carries binary data; `EstBinaireBienForme` proves that on the messages the constructors build, the kind alone decides |
| ChatMessage.EstBinaireBienForme | tp9_websocket/src/lib.rs:182-184 | for the messages the constructors build, "binary" means exactly the `Binaire` kind |
| ChatMessage.VersMessageWebSocket | tp9_websocket/src/lib.rs:187-197 | a binary message goes out as a Binary frame of the JSON's UTF-8 bytes, any other as a Text frame of the JSON, never as a control frame |
| ChatMessage.DepuisMessageWebSocket | tp9_websocket/src/lib.rs:200-211 | a control frame is unsupported; a Binary frame fails with the UTF-8 error exactly when its bytes are not UTF-8, and otherwise decodes as the Text frame of its text would; a Text frame decodes exactly as the JSON codec says |
| ChatMessage.DepuisVersMessageWebSocket | tp9_websocket/src/lib.rs:187-211 | every message survives being turned into a frame and back (codec round trip) |
| ChatMessage.ValiderNomUtilisateur | tp9_websocket/src/lib.rs:275-289 | empty, longer than 50 bytes, and containing a space are rejected in that order, and every other name is accepted |
| ChatMessage.NomAsciiLongueur | tp9_websocket/src/lib.rs:280 | for an ASCII name the 50 limit counts characters |
| ChatServer.Admission | tp9_websocket/src/serveur.rs:41-49 | a user is admitted exactly when the name is valid and not yet connected; an invalid name is refused with its validation text |
| ChatServer.EtatServeurWs.constructor | tp9_websocket/src/serveur.rs:30-38 | no user, counter at zero, nothing broadcast |
| ChatServer.EtatServeurWs.AjouterUtilisateur | tp9_websocket/src/serveur.rs:41-69 | a refused name changes nothing and returns the refusal; an admitted one is inserted, the counter goes up by one, and the arrival notice with the new head count is broadcast |
| ChatServer.EtatServeurWs.SupprimerUtilisateur | tp9_websocket/src/serveur.rs:72-80 | the user is removed, and a departure is broadcast exactly when it was connected |
| ChatServer.EtatServeurWs.ObtenirListeUtilisateurs | tp9_websocket/src/serveur.rs:83-85 | the list holds each connected name exactly once |
| ChatServer.EtatServeurWs.ObtenirStatistiques | tp9_websocket/src/serveur.rs:93-99 | the document holds the connected count, the total count and a list of the connected names |
| ChatServer.EtatServeurWs.DiffuserMessage | tp9_websocket/src/serveur.rs:88-90 | the message is appended to the broadcasts and nothing else changes |
| ChatServer.RetraitTaille | tp9_websocket/src/serveur.rs:73 | removing a present user shrinks the table by one |
| ChatServer.PremierMot | tp9_websocket/src/serveur.rs:354-355 | a command starting with `/` has a first word, which starts with `/` |
| ChatServer.ReponseCommande | tp9_websocket/src/serveur.rs:348-402 | `/quit` ends the connection without broadcasting; every other command broadcasts exactly one system message (no user) with the given id and time: a ping for `/ping`, otherwise a notification holding the help text for `/help`, the list of connected names for `/users`, "Statistiques du serveur:" and the statistics document for `/stats`, and "Commande inconnue: " with the word and the help hint for any other |
| ChatServer.Reaction | tp9_websocket/src/serveur.rs:283-345 | at most one broadcast per message, always from the sender or the system; the connection ends exactly on a disconnection or `/quit`, and then nothing is broadcast |
| ChatServer.PingPong | tp9_websocket/src/serveur.rs:329-333 | a ping is answered by one pong carrying the ping's id |
| ChatServer.BinaireRediffuse | tp9_websocket/src/serveur.rs:305-321 | a binary message is broadcast again under the sender's name with the same bytes and file name |
| ChatServer.ChatRediffuse | tp9_websocket/src/serveur.rs:289-301 | a chat text that is not a command is broadcast again under the sender's name |
| ChatServer.TraiterCommande | tp9_websocket/src/serveur.rs:348-402 | broadcasts exactly what `ReponseCommande` says over the current users, and changes neither the table nor the counter |
| ChatServer.ListeTaille | tp9_websocket/src/serveur.rs:83-85 | a list of a set's members, each once, is as long as the set |
| ChatServer.TraiterMessageClient | tp9_websocket/src/serveur.rs:283-345 | broadcasts exactly what `Reaction` says and changes neither the table nor the counter |
| ChatServer.ConsommeesDepuis | tp9_websocket/src/serveur.rs:254-269 | the reads consumed from position i: none before the last one stops the loop, and the loop stops early only on a stopping read |
| ChatServer.ConsommeesPas | tp9_websocket/src/serveur.rs:254-269 | a stopping read ends the loop right there; any other is passed |
| ChatServer.AuNomDe | tp9_websocket/src/serveur.rs:288-345 | broadcasts all from the sender or the system stay so when put together |
| ChatServer.Diffusions | tp9_websocket/src/serveur.rs:254-269 | reference fold for the read loop: the broadcasts of each item taken, in order, each reacting as `Reaction` does to the item's message with the server seen as in `vues`; `DiffusionsPas` gives its step and `DiffusionsBornes` bounds it by one broadcast per item, sent as the user or the server |
| ChatServer.BoucleLecture | tp9_websocket/src/serveur.rs:254-269 | the `while let` loop consumes the reads up to the first stopping one, broadcasts exactly `Diffusions` of the reads consumed (each read's `Reaction` on a view listing the connected names and the counter), and changes neither the table nor the counter |
| ChatServer.LireArrivee | tp9_websocket/src/serveur.rs:255-267 | one read: a stream error stops the loop and broadcasts nothing, a frame that is not a chat message is skipped, and a message broadcasts exactly its `Reaction` on the current users and counter, stopping the loop exactly when the handler fails |
| ChatServer.DiffusionsPas | tp9_websocket/src/serveur.rs:254-269 | the broadcasts over one more read are the earlier ones followed by that read's |
| ChatServer.DiffusionsBornes | tp9_websocket/src/serveur.rs:254-269 | over any reads, the loop broadcasts at most one message per read, each from the sender or the system |
| ChatServer.AccueilDe | tp9_websocket/src/serveur.rs:161-227 | the first read is silent exactly when nothing, a stream error or an undecodable frame arrives; a user is admitted only from a `Connexion` carrying an admissible name, and always then |
| ChatServer.GererConnexion | tp9_websocket/src/serveur.rs:145-280 | silence and refusals change nothing (a refusal sends one notice); an admitted user gets the welcome. The arrival notice is broadcast before its subscription starts. The broadcast log is then exactly the arrival notice, `Diffusions` of the items the read loop consumed (each seeing the table with the user in it and the counter one higher), and the departure notice last. The table ends as it began, with the counter one higher |
| ChatServer.SessionAdmise | tp9_websocket/src/serveur.rs:170-278 | an admitted user is added and the arrival notice broadcast; the subscription starts just after it; then comes exactly `Diffusions` of the items the read loop consumed, each seeing the table with the user in it and the counter one higher; then the departure notice. The table ends as it began, with the counter one higher |
| ChatServer.Seance | tp9_websocket/src/serveur.rs:254-276 | after the read loop the user is removed and the departure notice is the last broadcast; what the loop broadcast in between is exactly `Diffusions` of the items it consumed, each seeing the table as it was when the loop began |
| ChatServer.LivraisonsConcat | tp9_websocket/src/serveur.rs:237-249 | the writer task's deliveries over two runs of broadcasts are the deliveries of each |
| ChatServer.Livrer | tp9_websocket/src/serveur.rs:236-243 | the writer task's filter: a broadcast is forwarded to `nom` unless `nom` sent it and it is not a notification; `SansEcho` proves the effect in both directions, and `Livraisons` applies it to each broadcast |
| ChatServer.SansEcho | tp9_websocket/src/serveur.rs:239-243 | a user's own chat or binary message is not sent back to it; anyone else's is |
| ChatServer.TacheDiffusion | tp9_websocket/src/serveur.rs:234-251 | the writer task's loop sends exactly the deliveries of the broadcasts it receives |
| ChatClient.TraiterMessageRecu | tp9_websocket/src/client.rs:235-297 | shows a chat exactly when it is not the user's own, a binary exactly when it has a sender other than the user, every notification, presence, ping and pong, a user list exactly when it reads back, and never a users request |
| ChatClient.AffichageSelonLivraison | tp9_websocket/src/client.rs:237-260 | for constructed chat and binary messages, the client shows exactly what the server's writer would deliver |
| ChatClient.AffichageListe | tp9_websocket/src/client.rs:274-281 | a user list the server builds is shown as those names |
| ChatClient.Vu | tp9_websocket/src/client.rs:218-224 | a frame shows at most one thing |
| ChatClient.EcouteDe | tp9_websocket/src/client.rs:218-231 | the listener stops at a stream error and otherwise shows each frame's display in order |
| ChatClient.EcouteCoupee | tp9_websocket/src/client.rs:225-229 | nothing after a stream error is shown |
| ChatClient.EcouterServeur | tp9_websocket/src/client.rs:214-233 | the `while let` loop shows exactly what `Ecoute` describes |
| ChatClient.Extension | tp9_websocket/src/client.rs:179 | the part after the last dot: it holds no dot and ends the name |
| ChatClient.ExtensionFin | tp9_websocket/src/client.rs:179 | a joined text ends with its last part |
| ChatClient.ExtensionSansPoint | tp9_websocket/src/client.rs:179 | a name without a dot is its own extension |
| ChatClient.Octets | tp9_websocket/src/client.rs:181-191 | a run of n copies of one byte |
| ChatClient.DonneesSelonExtension | tp9_websocket/src/client.rs:179-188 | for `txt`, `jpg` and `png` the simulated data depend on the extension only |
| ChatClient.DonneesSimuleesForme | tp9_websocket/src/client.rs:179-194 | a `txt` file gives 48 bytes; an image gives 131 bytes starting with the JPEG header and ending with 100 zeros; anything else gives the 24-byte prefix, the name's UTF-8 bytes and fifty 42s |
| ChatClient.Router | tp9_websocket/src/client.rs:119-145 | a blank line is skipped; `/quit` in any case quits; `/file ` sends the rest as a file name; any other line is sent as trimmed text |
| ChatClient.ChatSansBlancs | tp9_websocket/src/client.rs:120-145 | a chat text sent is nonempty and already trimmed |
| ChatClient.EnvoiSaisie | tp9_websocket/src/client.rs:118-161 | a blank line or a read error sends nothing; any other line sends one frame |
| ChatClient.EnvoisDe | tp9_websocket/src/client.rs:112-164 | the loop sends the line's frames, then goes on unless the line stopped it |
| ChatClient.QuitterArreteServeur | tp9_websocket/src/client.rs:127-132 | the frame sent for `/quit` stops the server's read loop |
| ChatClient.EnvoisApresQuitter | tp9_websocket/src/client.rs:127-133 | nothing is sent after `/quit` |
| ChatClient.ConfirmationWs | tp9_websocket/src/client.rs:46-69 | connection is confirmed exactly by a notification; a timeout and a closed connection give their texts, and a stream error a text starting with "Erreur WebSocket" |
| ChatClient.BienvenueConfirme | tp9_websocket/src/client.rs:46-53 | the server's welcome confirms the connection, with the welcome text |
| ChatClient.RefusConfirme | tp9_websocket/src/client.rs:49-53 | the server's refusal is also a notification, so the client takes it as a confirmation |
| ChatClient.ClientWebSocket.constructor | tp9_websocket/src/client.rs:20-24 | a client with the given name and URL, not connected, having sent nothing |
| ChatClient.ClientWebSocket.Connecter | tp9_websocket/src/client.rs:28-69 | sends the connection message, returns `ConfirmationWs` of the answer, and is connected exactly when confirmed |
| ChatClient.ClientWebSocket.TraiterSaisie | tp9_websocket/src/client.rs:116-161 | sends what `EnvoiSaisie` says and stops exactly on quit or a read error |
| ChatClient.ClientWebSocket.BoucleEnvoiMessages | tp9_websocket/src/client.rs:108-168 | the `loop` sends exactly `Envois`; it breaks exactly when some line is a read error or `/quit`, and only then is the client marked disconnected |
| ChatClient.Nouveau | tp9_websocket/src/client.rs:16-25 | a client exists exactly when the name is valid, else the validation error |
| ChatClient.NormaliserUrl | tp9_websocket/src/client.rs:317-336 | always a `ws://` or `wss://` URL: the default for a blank line, the trimmed text when it already has a scheme, else `ws://` in front |
| ChatClient.NormaliserIdempotent | tp9_websocket/src/client.rs:317-336 | normalising a normalised URL changes nothing |
| Dns.Rcode | tp7_dns_simple/src/client.rs:62 | the response code is the low four bits of the flags |
| Dns.NouvelEnTete | tp7_dns_simple/src/lib.rs:44-58 | the id given, QR set exactly for a response, RD always set, response code 0 and all counts 0 |
| Dns.HeaderToBytes | tp7_dns_simple/src/lib.rs:62-71 | a header is 12 bytes |
| Dns.HeaderFromBytes | tp7_dns_simple/src/lib.rs:74-84 | reading a header fails exactly when fewer than 12 bytes are given |
| Dns.HeaderRoundTrip | tp7_dns_simple/src/lib.rs:62-84 | a written header reads back, whatever follows it |
| Dns.HeaderBytesRoundTrip | tp7_dns_simple/src/lib.rs:62-84 | a header read from 12 bytes writes back as those bytes |
| Dns.NomEncode | tp7_dns_simple/src/lib.rs:98-109 | an encoded name ends with the zero byte |
| Dns.NonVides | tp7_dns_simple/src/lib.rs:102 | the labels kept are the nonempty ones |
| Dns.EncodePiecesNonVides | tp7_dns_simple/src/lib.rs:101-107 | empty labels contribute nothing, and the encoding's length is one plus the length of each nonempty label |
| Dns.NomEncodeLongueur | tp7_dns_simple/src/lib.rs:98-109 | the encoded length is one byte per label plus the labels plus the terminator |
| Dns.EncodePiecesDe | tp7_dns_simple/src/lib.rs:101-107 | the loop over the labels from position i writes label i then the rest |
| Dns.PushLabel | tp7_dns_simple/src/lib.rs:103-104 | appends one length byte and the label |
| Dns.EncodeDomainName | tp7_dns_simple/src/lib.rs:98-109 | the `for` loop writes exactly the encoding `NomEncode` describes, the length byte wrapping as `as u8` does |
| Dns.DecodeDepuis | tp7_dns_simple/src/lib.rs:112-140 | decoding fails only for lack of data, and a success ends after its start and within the data |
| Dns.DecodeDomainName | tp7_dns_simple/src/lib.rs:112-140 | the `loop` computes exactly `NomDecode` |
| Dns.DecodePas | tp7_dns_simple/src/lib.rs:121-137 | a nonzero length byte whose label fits moves past it and adds it to the name |
| Dns.DecodeEtiquette | tp7_dns_simple/src/lib.rs:121-137 | decoding a stated label and continuing after it |
| Dns.DecodeFin | tp7_dns_simple/src/lib.rs:124-126 | the zero byte ends the name, positioned just after it |
| Dns.DecodePieces | tp7_dns_simple/src/lib.rs:112-140 | encoded labels followed by the zero byte decode to their dotted join, ending right after the zero |
| Dns.ReplieJoin | tp7_dns_simple/src/lib.rs:132-135 | the decoder's dot-joining is the join of the labels with '.' |
| Dns.NomDecodeEncode | tp7_dns_simple/src/lib.rs:98-140 | any name with labels of at most 255 bytes reads back as its nonempty labels joined by dots |
| Dns.NomRoundTrip | tp7_dns_simple/src/lib.rs:98-140 | a valid name (nonempty labels of at most 255 bytes) reads back unchanged |
| Dns.DecodePiecesTronque | tp7_dns_simple/src/lib.rs:117-130 | any strict prefix of encoded labels and terminator gives "insufficient data" |
| Dns.NomTronque | tp7_dns_simple/src/lib.rs:117-130 | a valid name cut short gives "insufficient data" |
| Dns.EtiquettesDe | tp7_dns_simple/src/lib.rs:98-109 | a valid name encodes as its labels and the terminator |
| Dns.NouvelleQuestion | tp7_dns_simple/src/lib.rs:89-95 | the name and type given, class IN |
| Dns.QuestionToBytes | tp7_dns_simple/src/lib.rs:144-157 | the encoded name and four bytes of type and class |
| Dns.QuestionForme | tp7_dns_simple/src/lib.rs:144-157 | the name, then type and class big-endian |
| Dns.NouvelEnregistrementA | tp7_dns_simple/src/lib.rs:161-170 | type A, class IN, the TTL given, four data bytes holding the address |
| Dns.AnswerToBytes | tp7_dns_simple/src/lib.rs:173-191 | the encoded name, ten fixed bytes and the data |
| Dns.AnswerForme | tp7_dns_simple/src/lib.rs:173-191 | the name, then type, class, TTL and data length big-endian, then the data |
| Dns.NouvelleRequete | tp7_dns_simple/src/lib.rs:195-206 | a query (QR clear) with the id, one question of the given name and type, and no answer |
| Dns.NouvelleReponse | tp7_dns_simple/src/lib.rs:209-218 | a response (QR and RD set, code 0) with the query's id, question count and questions, and no answer |
| Dns.MessageToBytes | tp7_dns_simple/src/lib.rs:221-238 | a message starts with its 12 header bytes |
| Dns.QuestionsToBytesDe | tp7_dns_simple/src/lib.rs:228-230 | the questions from i are question i then the rest |
| Dns.AnswersToBytesDe | tp7_dns_simple/src/lib.rs:233-235 | the answers from i are answer i then the rest |
| Dns.QuestionBytes | tp7_dns_simple/src/lib.rs:144-157 | writes exactly `QuestionToBytes` |
| Dns.AnswerBytes | tp7_dns_simple/src/lib.rs:173-191 | writes exactly `AnswerToBytes` |
| Dns.WriteQuestions | tp7_dns_simple/src/lib.rs:228-230 | the `for` loop writes every question in order |
| Dns.WriteAnswers | tp7_dns_simple/src/lib.rs:233-235 | the `for` loop writes every answer in order |
| Dns.ToBytes | tp7_dns_simple/src/lib.rs:221-238 | writes exactly `MessageToBytes` |
| Dns.LireQuestion | tp7_dns_simple/src/lib.rs:252-274 | a question read moves forward within the data, and its errors are never the header's |
| Dns.LireQuestions | tp7_dns_simple/src/lib.rs:251-275 | reading n questions yields exactly n more and never moves back |
| Dns.LireReponse | tp7_dns_simple/src/lib.rs:278-308 | an answer read either fails on its name, stops the loop (the `break`s), or moves forward with a data length equal to its data |
| Dns.LireReponses | tp7_dns_simple/src/lib.rs:277-309 | at most n answers are added, after those already read, and only a name can fail |
| Dns.MessageFromBytes | tp7_dns_simple/src/lib.rs:241-316 | the header error exactly below 12 bytes; a message read has the header of its first 12 bytes, exactly `qdcount` questions and at most `ancount` answers |
| Dns.HeaderPrefixe | tp7_dns_simple/src/lib.rs:74-84 | the header depends on the first 12 bytes only |
| Dns.ReadQuestion | tp7_dns_simple/src/lib.rs:252-274 | computes exactly `LireQuestion` |
| Dns.ReadAnswer | tp7_dns_simple/src/lib.rs:278-308 | computes exactly `LireReponse` |
| Dns.ReadQuestions | tp7_dns_simple/src/lib.rs:251-275 | the `for` loop computes exactly `LireQuestions` |
| Dns.ReadAnswers | tp7_dns_simple/src/lib.rs:277-309 | the `for` loop computes exactly `LireReponses` |
| Dns.FromBytes | tp7_dns_simple/src/lib.rs:241-316 | computes exactly `MessageFromBytes` |
| Dns.LireQuestionEncodee | tp7_dns_simple/src/lib.rs:252-274 | an encoded valid question reads back, positioned after it |
| Dns.LireQuestionsEncodees | tp7_dns_simple/src/lib.rs:251-275 | encoded valid questions read back in order |
| Dns.LireReponseEncodee | tp7_dns_simple/src/lib.rs:278-308 | an encoded valid answer reads back, positioned after it |
| Dns.LireReponsesArret | tp7_dns_simple/src/lib.rs:278-299 | an answer that stops the loop keeps what was read, unless its name fails |
| Dns.LireReponsesEncodees | tp7_dns_simple/src/lib.rs:277-309 | encoded valid answers read back in order |
| Dns.MessageRoundTrip | tp7_dns_simple/src/lib.rs:221-316 | a valid message (counts matching its lists, valid names, data lengths matching the data) reads back unchanged |
| Dns.LireQuestionTronquee | tp7_dns_simple/src/lib.rs:252-262 | a question cut short fails with the error of the point where it stops: no data, name or type/class |
| Dns.LireQuestionsTronquees | tp7_dns_simple/src/lib.rs:251-275 | questions cut short fail |
| Dns.MessageTronqueQuestions | tp7_dns_simple/src/lib.rs:241-275 | a valid message cut inside its questions fails, and not on the header |
| Dns.LireReponseTronquee | tp7_dns_simple/src/lib.rs:278-299 | an answer cut inside its name fails; cut after it, the loop just stops |
| Dns.MessageTronqueReponses | tp7_dns_simple/src/lib.rs:277-309 | a valid message cut inside answer j fails if the cut is inside j's name, and otherwise reads as the message with its first j answers |
| DnsServer.Enregistrement | tp7_dns_simple/src/serveur.rs:83-87 | the record for a known A question: its name, type A, class IN, TTL 300 and the table's address |
| DnsServer.AppliquerPas | tp7_dns_simple/src/serveur.rs:76-104 | the loop over the first i + 1 questions is the loop over i and then question i |
| DnsServer.ServeurDns.constructor | tp7_dns_simple/src/serveur.rs:19-23 | the table holds the four configured domains |
| DnsServer.ServeurDns.TraiterQuestions | tp7_dns_simple/src/serveur.rs:73-104 | the `for` loop builds exactly `ReponseA` |
| DnsServer.ServeurDns.TraiterRequete | tp7_dns_simple/src/serveur.rs:60-119 | sends exactly `Reponse` of the datagram |
| DnsServer.Connues | tp7_dns_simple/src/serveur.rs:80-81 | the known A questions, each one known |
| DnsServer.Enregistrements | tp7_dns_simple/src/serveur.rs:83-89 | one record per known question, in order |
| DnsServer.DrapeauxNouvelleReponse | tp7_dns_simple/src/lib.rs:209-218 | a fresh response's flags are QR and RD only |
| DnsServer.OuPas | tp7_dns_simple/src/serveur.rs:94-103 | or-ing 3 or 4 into the response code, from any code reachable, gives 3, 4 or 7 |
| DnsServer.DrapeauxLus | tp7_dns_simple/src/serveur.rs:94-103 | every flags value reached keeps QR and RD and has the code added |
| DnsServer.Traiter | tp7_dns_simple/src/serveur.rs:80-103 | one turn of the question loop: a known A question adds its record and raises `ancount` modulo 2^16, an unknown name ORs RCODE 3 into the flags, any other type ORs RCODE 4; `TraiterEffet` states these effects |
| DnsServer.TraiterEffet | tp7_dns_simple/src/serveur.rs:80-103 | one question adds its record exactly when known, raises `ancount` by one modulo 2^16, and changes nothing else but the flags |
| DnsServer.Appliquer | tp7_dns_simple/src/serveur.rs:76-104 | the question loop over `qs`, in order, as a fold of `Traiter`; `AppliquerPas` gives its step, `AppliquerEffet`, `AppliquerAncount` and `AppliquerDrapeaux` what it does to the records, the count and the flags |
| DnsServer.AppliquerEffet | tp7_dns_simple/src/serveur.rs:76-104 | the loop appends the records of the known questions, in order, and changes nothing but the flags and `ancount` |
| DnsServer.AppliquerAncount | tp7_dns_simple/src/serveur.rs:90 | below 2^16 questions, `ancount` counts the records added |
| DnsServer.AppliquerDrapeaux | tp7_dns_simple/src/serveur.rs:94-103 | the loop's flags are the response's plus the code of the questions |
| DnsServer.ReponseA | tp7_dns_simple/src/serveur.rs:73-104 | the response `traiter_requete` builds for a parsed request: `new_response` then the question loop; `ReponseEnTete`, `ReponseRcode`, `ReponseReponses`, `ConnueRepondue` and `RepondueConnue` state what it holds |
| DnsServer.ReponseEnTete | tp7_dns_simple/src/serveur.rs:73 | the response keeps the id, the question count and the questions, and has QR and RD set |
| DnsServer.ReponseRcode | tp7_dns_simple/src/serveur.rs:76-104 | the code is 0 exactly when every question is a known A question |
| DnsServer.RequeteMixte | tp7_dns_simple/src/serveur.rs:94-103 | an unknown A question and a non-A question together give code 7, which no standard names |
| DnsServer.ReponseReponses | tp7_dns_simple/src/serveur.rs:76-104 | the answers are the records of the known questions and `ancount` is their number |
| DnsServer.ConnueRepondue | tp7_dns_simple/src/serveur.rs:80-89 | every known question is answered |
| DnsServer.RepondueConnue | tp7_dns_simple/src/serveur.rs:80-89 | every answer is the record of some known question |
| DnsServer.Reponse | tp7_dns_simple/src/serveur.rs:60-119 | `traiter_requete` on a datagram: no response when it does not parse, else the bytes of `ReponseA`; `SansReponse` and `ReponseDeRequete` state its two cases |
| DnsServer.SansReponse | tp7_dns_simple/src/serveur.rs:62-68 | nothing is sent back exactly when the datagram does not parse |
| DnsServer.ReponseDeRequete | tp7_dns_simple/src/serveur.rs:62-104 | the response to a parsed datagram has `ancount` equal to its answers |
| DnsClient.Requete | tp7_dns_simple/src/client.rs:36 | the query: the id given, one A question of class IN, no answer |
| DnsClient.PremiereIpv4 | tp7_dns_simple/src/client.rs:71-79 | the answer found is of type A with four data bytes |
| DnsClient.Tampon | tp7_dns_simple/src/client.rs:45-47 | a datagram is read into a 512-byte buffer, keeping its first bytes |
| DnsClient.ChercherIpv4 | tp7_dns_simple/src/client.rs:71-81 | the `for` loop finds exactly `PremiereIpv4` |
| DnsClient.ResoudreDomaine | tp7_dns_simple/src/client.rs:29-113 | sends the encoded query and returns exactly `Resultat` of what it receives |
| DnsClient.Lire | tp7_dns_simple/src/client.rs:53-96 | what the client makes of a parsed response: nothing for another id or a nonzero RCODE, else the dotted form of the first IPv4 answer; `RienSansSucces`, `PremiereIpv4Est` and `QuadLu` characterise it |
| DnsClient.LireReponse | tp7_dns_simple/src/client.rs:53-96 | computes exactly `Lire` |
| DnsClient.PremiereIpv4Est | tp7_dns_simple/src/client.rs:71-81 | none is found exactly when no answer is IPv4; otherwise the first IPv4 answer is found |
| DnsClient.SansPoint | tp7_dns_simple/src/client.rs:73-75 | a written number holds no dot |
| DnsClient.QuadLu | tp7_dns_simple/src/client.rs:73-75 | the dotted address splits into four numbers that read back as the four bytes |
| DnsClient.RienSansSucces | tp7_dns_simple/src/client.rs:55-95 | a wrong id or a nonzero code gives no address |
| DnsClient.Resultat | tp7_dns_simple/src/client.rs:47-103 | the outcome of `resoudre_domaine` for one reception: an error only for a receive error, nothing for a timeout or an unparseable datagram, else `Lire` of the parsed reply; `ResultatAdresse` and `ResultatErreur` state its cases |
| DnsClient.ResultatAdresse | tp7_dns_simple/src/client.rs:47-103 | an address comes exactly from a datagram that parses, has the right id and code 0 and holds an IPv4 answer, and it is the first one's |
| DnsClient.ResultatErreur | tp7_dns_simple/src/client.rs:104-111 | only a receive error is an error; a timeout gives no address |
| DnsClient.RequeteLue | tp7_dns_simple/src/client.rs:36-37 | the query for a valid name parses back on the server unchanged |
| DnsClient.ReponseConnue | tp7_dns_simple/src/serveur.rs:73-107 | the server's response to the query for a configured name has the id, code 0 and the one record, reads back, and has the stated length |
| DnsClient.Resolution | tp7_dns_simple/src/client.rs:29-113 | end to end: a configured name fitting in the buffer resolves to its dotted address |
| DnsClient.ResultatRecu | tp7_dns_simple/src/client.rs:45-53 | a datagram that fits in the 512-byte buffer and parses gives exactly what `Lire` makes of the parsed response |
| DnsClient.LireSeule | tp7_dns_simple/src/client.rs:53-81 | a response with the query's id, code 0 and one A record gives that record's dotted address |
| DnsClient.ChoixLigneSens | tp7_dns_simple/src/client.rs:127-138 | about `ChoixLigne`, one line of `session_interactive`: skipped exactly when all whitespace, the session ends exactly on a trimmed `quit` or `exit` in any ASCII case, and otherwise the trimmed line, free of surrounding whitespace, is the name resolved, and typing it again resolves it again |
| LogWriter.FormatTimestamp | src/ecrivain.rs:53-59 | the readable date starts with the fixed day and fits on one line |
| LogWriter.VersFormatLog | src/ecrivain.rs:31-38 | the technical line starts with the bracketed timestamp, ends with its only line break when no field holds one |
| LogWriter.VersFormatTxt | src/ecrivain.rs:41-49 | the readable line starts with the date, the bracketed level and the message, and ends with its only line break when no field holds one; `LigneLisible` gives its exact form |
| LogWriter.LigneLisible | src/ecrivain.rs:41-49 | without data the readable line is exactly `date + " [" + niveau + "] " + message + "\n"`; with data `" - Données: " + d` comes between the message and the line break, so the line ends with the data and its one line break |
| LogWriter.HorodatageLu | src/ecrivain.rs:53-59 | the time reads back as three numbers: an hour of 18 plus the timestamp modulo 6 (so 18 to 23), then twice the timestamp modulo 60 |
| LogWriter.HorodatagePeriodique | src/ecrivain.rs:53-59 | the readable date depends on the timestamp modulo 60 only |
| LogWriter.ModuloSix | src/ecrivain.rs:56 | adding a multiple of 6 leaves the hour's remainder unchanged |
| LogWriter.TxtPeriodique | src/ecrivain.rs:41-59 | entries whose timestamps agree modulo 60 have the same readable line |
| LogWriter.LogDistingueHorodatage | src/ecrivain.rs:31-38 | different timestamps give different technical lines |
| LogWriter.Crochets | src/ecrivain.rs:33-36 | the digits after the line's `[` are followed by `]` |
| LogWriter.PrefixeChiffres | src/ecrivain.rs:33-36 | two digit runs both followed by `]` at the same place are equal |
| LogParser.LireMessage | src/analyseur_trame.rs:28-34 | the message holds no " \| Data: ", data keep the separator's last space, and message, separator and data rebuild the text |
| LogParser.LireCorps | src/analyseur_trame.rs:23-35 | no result exactly without " - "; the level holds no " - ", and level, " - ", message and data rebuild the text |
| LogParser.ParseLigneLog | src/analyseur_trame.rs:16-40 | `None` exactly when the line does not start with `[`, has no `]`, or its trimmed rest has no " - "; otherwise the timestamp is the text between `[` and the first `]`, and the fields rebuild the rest |
| LogParser.SansOccurrenceAvant | src/analyseur_trame.rs:23-29 | nothing before the first occurrence of a pattern holds it |
| LogParser.LigneEcrite | src/ecrivain.rs:31-38 | the technical line without its break is the bracketed timestamp, a space, the level, " - " and the rest |
| LogParser.EnTeteLu | src/analyseur_trame.rs:17-21 | the parser finds the written timestamp and trims what follows |
| LogParser.ResteEcrit | src/analyseur_trame.rs:21 | a readable entry's rest is already trimmed apart from the leading space |
| LogParser.CorpsEcrit | src/analyseur_trame.rs:23-35 | the rest of a written line splits back into the entry's level, message and data |
| LogParser.EcrireLire | src/analyseur_trame.rs:16-40 | a written line, without its break, parses back to the entry's timestamp, level and message, with the data behind one space |
| LogParser.Gardees | src/analyseur_trame.rs:51-53 | keeping the parsed lines keeps no more than there are |
| LogParser.GardeesConcat | src/analyseur_trame.rs:49-54 | keeping distributes over concatenation |
| LogParser.GardeesMembres | src/analyseur_trame.rs:51-53 | an entry is kept exactly when some line gave it |
| LogParser.Analyses | src/analyseur_trame.rs:49-51 | one parse per line, in order |
| LogParser.Lues | src/analyseur_trame.rs:44-57 | no more entries than lines |
| LogParser.LuesConcat | src/analyseur_trame.rs:49-54 | reading two runs of lines reads each in order |
| LogParser.LueSeule | src/analyseur_trame.rs:51-53 | a single line gives its entry when it parses, nothing otherwise |
| LogParser.LuesMembres | src/analyseur_trame.rs:49-54 | an entry is read exactly when some line parses to it |
| LogParser.AnalyserLignes | src/analyseur_trame.rs:44-57 | the `for` loop keeps exactly the entries of the lines that parse, in order |
| LogParser.FiltrerParNiveau | src/analyseur_trame.rs:82-86 | no more entries than given, all of the requested level |
| LogParser.FiltrerConcat | src/analyseur_trame.rs:82-86 | filtering keeps the order: it distributes over concatenation |
| LogParser.FiltrerSeule | src/analyseur_trame.rs:84 | one entry is kept exactly when its level matches |
| LogParser.FiltrerMembres | src/analyseur_trame.rs:82-86 | an entry is kept exactly when it is given and of the requested level |
| LogParser.AvecDonnees | src/analyseur_trame.rs:66-68 | no more entries with data than entries |
| LogParser.Compteurs | src/analyseur_trame.rs:60-66 | the per-level counts of `analyser_statistiques_log`, one increment per entry in order as the `entry().or_insert(0) += 1` does; `CompteursExacts` and `CompteursSomme` give each count exactly and their sum |
| LogParser.CompteursExacts | src/analyseur_trame.rs:64-65 | a level is counted exactly when some entry has it, and its count is the number of such entries |
| LogParser.CompteursSomme | src/analyseur_trame.rs:64-65 | the counts add up to the number of entries |
| LogParser.AnalyserStatistiques | src/analyseur_trame.rs:60-69 | the `for` loop computes the per-level counts and the entries with data; the counts add up to the number of entries, and those with data are no more |
| Bank.Retire | src/tp1.rs:17-27 | the balance changes exactly for a positive amount the balance covers, and then by that amount; a non-negative balance stays so |
| Bank.Depose | src/tp1.rs:30-38 | the balance changes exactly for a positive amount, and then grows by it |
| Bank.DepotPuisRetrait | src/tp1.rs:17-38 | a deposit then a withdrawal of the same amount gives the balance back |
| Bank.RetraitPuisDepot | src/tp1.rs:17-38 | a withdrawal that goes through is undone by a deposit of the same amount |
| Bank.CompteBancaire.constructor | src/tp1.rs:4-7 | an account with the name and balance given |
| Bank.CompteBancaire.Retrait | src/tp1.rs:17-27 | the balance becomes `Retire` of the amount; the name stays |
| Bank.CompteBancaire.Depot | src/tp1.rs:30-38 | the balance becomes `Depose` of the amount; the name stays |
| Bank.CompteBancaire.Renommer | src/tp1.rs:41-46 | a new account with the new name and the same balance |
| Bank.ComptesInitiaux | src/tp1.rs:51-54 | the two opening accounts, distinct, with their names and balances |
| Bank.ChoixCompte | src/tp1.rs:105-111 | an account is picked only for a trimmed `usize` between 1 and the number of accounts, and it is the one below that number |
| Bank.ChoixNumero | src/tp1.rs:105-111 | typing back a number with its line break picks account n - 1 exactly when 1 ≤ n ≤ the number of accounts |
| Bank.LigneChiffres | src/tp1.rs:105 | a line of digits trims to its digits |
| Bank.MenuRetrait | src/tp1.rs:98-124 | the account chosen, and only it, withdraws the amount; an invalid choice or an amount that does not parse changes no balance; all names stay |
| Bank.MenuDepot | src/tp1.rs:125-151 | the account chosen, and only it, deposits the amount; an invalid choice or an amount that does not parse changes no balance; all names stay |
| Bank.MenuRenommer | src/tp1.rs:159-188 | an invalid choice or a blank name changes nothing; otherwise the chosen account is replaced by a renamed copy with the trimmed name and the same balance, and the others stay |

## Left out

- Sockets, tasks and timers: TCP, UDP and WebSocket accept and receive loops, `tokio::spawn`, the `Arc<Mutex<…>>` locking and the timeouts are replaced by the sequence of reads a connection sees (bytes, an error or a timeout); the interleaving of concurrent connections is not modelled.
- Writes and sends always succeed: a failed `write_all`, `send` or `send_to` and its error path are not modelled.
- The tokio broadcast channel (capacity 1000, lagging receivers) is a log of broadcast messages; a connection's writer task reads the log from its subscription point.
- `serde_json` is a codec given as a pair of functions; its round trip is a hypothesis of the lemmas that need it (`RoundTrips`), and its error texts are not modelled. `serde_json::to_string_pretty` is a function parameter.
- `Uuid::new_v4`, `generer_id_session`, `chrono::Utc::now` and `rand::random` are parameters: ids, session ids, timestamps and the DNS query id are given to the operations.
- `f64`: amounts and operands are `real`, with no NaN, infinity or rounding; `calculateur::calculer` and the `f64` parsing of the calculation client's operands are function parameters.
- Bank.MenuRetrait and Bank.MenuDepot: the `f64` parsing of the amount typed is not modelled; the amount arrives already parsed, `None` standing for the "Montant invalide." path, which changes no account.
- CalcServer.InfoDe: the `temps_demarrage` and `temps_fonctionnement_secondes` fields of `obtenir_info_serveur` are not modelled; they are the start time and the uptime read from the clock. Every other field is modelled exactly.
- CalcServer.StatistiquesDe: the `sessions` array of `obtenir_statistiques` is not modelled. It holds each session's id, address, calculation count, connection time and connection duration, the last read from the clock. The three counters are modelled exactly, and so is `moyenne_calculs_par_session`: the exact quotient `total_calculs / total_connexions`, or 0 with no connection, where the source divides two `f64`.
- CalcServer.ConnexionCalcul.GererClient and CalcServer.ConnexionCalcul.GererClientCorrige: the buffer left once an accepted session's read loop ends is not stated. In `gerer_client` it is the local `donnees_incompletes`, dropped when the function returns.
- ChatClient.ConfirmationWs: the text of the WebSocket error that follows "Erreur WebSocket: " is not modelled; the failure text is "Erreur WebSocket".
- The `Display` implementations, `afficher_json_formate`, `formater_valeur_json`, `afficher_solde` and every `println!`: only the decisions around the printing are modelled, not the printed text.
- `HashMap` iteration order: the list of connected users is any listing of the table's names, each once.
- Counter overflow: `total_connexions`, `total_calculs`, `compteur_connexions`, `connexions_actives` and `calculs_effectues` are unbounded (`u64`/`u32` overflow is out of reach in practice); DNS `ancount += 1` does wrap modulo 2^16, and the label length `as u8` wraps modulo 256.
- CalcProtocol.DepuisVersBytes: needs the JSON body under 2^32 bytes; above that the `as u32` length wraps and the frame does not decode to the message.
- `String::from_utf8_lossy` in the DNS decoder: names are kept as their bytes, so invalid UTF-8 is not replaced by U+FFFD.
- DNS name compression (section 4.1.4 of RFC 1035) is not implemented by the decoder and so not by the model.
- A DNS answer whose name is cut short is an error of the whole message (the `?` on `decode_domain_name`), while a cut in its fixed fields or data just ends the answers: the model follows the code here, which is stricter than "a truncated answer is skipped silently".
- `session_interactive` in the DNS client, `demarrer_session_interactive`, `demander_nom_utilisateur` and `demander_url_serveur`'s prompt in the chat client, and the bank's main menu loop: stdin loops whose decisions are modelled by `DnsClient.ChoixLigne`, `ChatMessage.ValiderNomUtilisateur`, `ChatClient.NormaliserUrl`, `Bank.ChoixCompte` and the `Bank.Menu…` methods. The menu's option number and its "Liste comptes" and "Afficher solde" options only print.
- `traiter_reponse` in the tp8 client only prints the reply; the model records the message received.
- The file writers of `src/ecrivain.rs` (`ecrire_entree_double_format`, `ecrire_trame_donnees`) and the file opening of `src/analyseur_trame.rs`: the reader is given the file's lines; `BufRead::lines` splitting and its `'\r'` stripping are not modelled, nor I/O errors.
- LogWriter.VersFormatLog: the timestamp of `EntreeDonnee` is a `nat`; the `u64` bound of the source is not modelled.
- LogParser.EcrireLire: the entry must also have a nonempty level not starting with whitespace, no " - " formed where the level meets the separator, and nonempty data (or message) without trailing whitespace; without these `trim` or `find` cut the line elsewhere.
- tp8 `main.rs`, tp9 `main.rs`, `src/main.rs`, `TP0` and `journalisation_server` print, read stdin or write files only and are not part of this model.

## Findings

| source | as written | input that shows it | evidently intended | confidence | as-written member | corrected member |
|---|---|---|---|---|---|---|
| tp8_protocole_personnalise/src/serveur.rs:204 | a `Deconnexion` makes `traiter_message_client` return `Err` (line 375), which the `?` at line 204 turns into an early return from `gerer_client`, skipping the clean-up at lines 243-247 | a `Connexion` with session id "s", then a `Deconnexion` frame: "s" stays in the session table, so reconnecting with "s" is refused as already active | the session is removed whenever the connection ends | not executed | CalcServer.ConnexionCalcul.GererClient (witness CalcServer.FuiteSession) | CalcServer.ConnexionCalcul.GererClientCorrige |
